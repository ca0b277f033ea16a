/**
 What single calls on the stream and the atoms leave behind, row by row.
 */
module StoreProofs {
  import opened Tables
  import opened TextOrder
  import opened Atoms
  import opened Scenes
  import opened SceneCache
  import Windows

  // ----- The stream

  /** The least number from 1 on that is above every turn. */
  ghost predicate IsNext(stream: seq<Turn>, n: int) {
    && n >= 1 && (forall t <- stream :: t.seqNo < n)
    && (n == 1 || exists t <- stream :: t.seqNo == n - 1)
  }

  /** A new turn comes last, under that number. */
  lemma AppendExactly(stream: seq<Turn>, id: string, session: string, content: string, n: nat)
    ensures Windows.Append(stream, id, session, content) == stream + [Turn(id, session, content, n)] <==> IsNext(stream, n)
  {
    var head := Windows.HeadSeq(stream);
    Windows.HeadIsMax(stream);
    if stream != [] {
      var i :| 0 <= i < |stream| && stream[i].seqNo == head;
      assert stream[i] in stream;
    }
    assert forall t <- stream :: t.seqNo <= head;
    var d := Windows.Append(stream, id, session, content);
    assert d[|stream|] == Turn(id, session, content, head + 1);
    assert IsNext(stream, head + 1);
    assert n > head + 1 ==> !IsNext(stream, n);
  }

  // ----- Atoms

  ghost predicate OtherAtomsKept(mem: Memory, out: Memory, id: string) {
    && out == mem.(atoms := out.atoms, atomRows := out.atomRows, atomFts := out.atomFts, atomVecs := out.atomVecs)
    && out.atoms.Keys == mem.atoms.Keys + {id} && out.atomVecs.Keys == mem.atomVecs.Keys + {id}
    && (forall x :: x in mem.atoms && x != id ==> out.atoms[x] == mem.atoms[x])
    && (forall x :: x in mem.atomVecs && x != id ==> out.atomVecs[x] == mem.atomVecs[x])
    && out.atomRows == if id in mem.atoms then mem.atomRows else mem.atomRows + [id]
  }

  /** Text rows of other atoms stay in place, and the last row is this one; a stored atom has no
      other. */
  ghost predicate TextRowLast(mem: Memory, out: Memory, w: AtomWrite) {
    && out.atomFts != [] && out.atomFts[|out.atomFts| - 1] == FtsRow(w.id, w.content)
    && var front := out.atomFts[..|out.atomFts| - 1];
       && WithoutFts(front, w.id) == WithoutFts(mem.atomFts, w.id)
       && if w.id in mem.atoms then forall row <- front :: row.id != w.id else front == mem.atomFts
  }

  lemma {:induction false} WithoutFtsTwice(rows: seq<FtsRow>, id: string)
    ensures forall row <- WithoutFts(rows, id) :: row.id != id && row in rows
    ensures WithoutFts(WithoutFts(rows, id), id) == WithoutFts(rows, id)
  {
    if rows != [] {
      WithoutFtsTwice(rows[1..], id);
      assert rows == [rows[0]] + rows[1..];
      var rest := WithoutFts(rows[1..], id);
      assert WithoutFts(rows, id) == if rows[0].id == id then rest else [rows[0]] + rest;
      assert ([rows[0]] + rest)[1..] == rest;
    }
  }

  /** A public write is refused exactly when it would change the words or the kind of a stored
      atom, or meets a vector without one. Otherwise the atom has the words, kind and vector of
      the write; a caller's write also sets its metadata, a pass's leaves a stored atom's alone.
      The status of a stored atom never changes. */
  lemma WriteExactly(mem: Memory, w: AtomWrite, policy: ExistingPolicy)
    ensures WriteAtom(mem, w, policy).Err?
        <==> if w.id in mem.atoms then mem.atoms[w.id].content != w.content || mem.atoms[w.id].kind != w.kind
             else w.id in mem.atomVecs
    ensures WriteAtom(mem, w, policy).Err? ==>
              WriteAtom(mem, w, policy).fault == if w.id !in mem.atoms then DuplicateVector(w.id)
                                                 else if mem.atoms[w.id].content != w.content then ContentImmutable(w.id) else KindImmutable(w.id)
    ensures WriteAtom(mem, w, policy).Ok? ==>
              var out := WriteAtom(mem, w, policy).value;
              && OtherAtomsKept(mem, out, w.id) && TextRowLast(mem, out, w)
              && out.atomVecs[w.id] == w.vec
              && out.atoms[w.id].kind == w.kind && out.atoms[w.id].content == w.content
              && out.atoms[w.id].meta == (if w.id in mem.atoms && policy == Preserve then mem.atoms[w.id].meta else w.meta)
              && out.atoms[w.id].status == if w.id in mem.atoms then mem.atoms[w.id].status else Active
  {
    if WriteAtom(mem, w, policy).Ok? {
      WrittenRow(mem, w, policy, WriteAtom(mem, w, policy).value);
      WrittenText(mem, w, policy, WriteAtom(mem, w, policy).value);
    }
  }

  lemma WrittenRow(mem: Memory, w: AtomWrite, policy: ExistingPolicy, out: Memory)
    requires WriteAtom(mem, w, policy) == Ok(out)
    ensures OtherAtomsKept(mem, out, w.id)
    ensures out.atomVecs[w.id] == w.vec
            && out.atoms[w.id].kind == w.kind && out.atoms[w.id].content == w.content
            && out.atoms[w.id].meta == (if w.id in mem.atoms && policy == Preserve then mem.atoms[w.id].meta else w.meta)
            && out.atoms[w.id].status == if w.id in mem.atoms then mem.atoms[w.id].status else Active
  {
  }

  lemma WrittenText(mem: Memory, w: AtomWrite, policy: ExistingPolicy, out: Memory)
    requires WriteAtom(mem, w, policy) == Ok(out)
    ensures TextRowLast(mem, out, w)
  {
    var front := if w.id in mem.atoms then WithoutFts(mem.atomFts, w.id) else mem.atomFts;
    WithoutFtsTwice(mem.atomFts, w.id);
    assert out.atomFts == front + [FtsRow(w.id, w.content)];
    assert out.atomFts[..|out.atomFts| - 1] == front;
  }

  /** Nothing but the statuses of these atoms changes. */
  ghost predicate OnlyStatuses(mem: Memory, out: Memory, ids: set<string>, status: AtomStatus) {
    && out == mem.(atoms := out.atoms) && out.atoms.Keys == mem.atoms.Keys
    && forall x :: x in mem.atoms ==> out.atoms[x] == if x in ids then mem.atoms[x].(status := status) else mem.atoms[x]
  }

  /** All losers of a merge are merged, whatever they were. */
  lemma {:induction false} MergeExactly(mem: Memory, ids: seq<string>)
    ensures OnlyStatuses(mem, MergeAll(mem, ids), (set id | id in ids), Merged)
    decreases |ids|
  {
    if ids != [] {
      MergeExactly(SetStatus(mem, ids[0], Merged), ids[1..]);
      assert ids == [ids[0]] + ids[1..];
    }
  }

  /** Only an active atom is archived. */
  lemma ArchiveExactly(mem: Memory, id: string)
    ensures OnlyStatuses(mem, ArchiveAtom(mem, id), if IsActive(mem, id) then {id} else {}, Archived)
  {
    assert OnlyStatuses(mem, ArchiveAtom(mem, id), if IsActive(mem, id) then {id} else {}, Archived);
  }

  // ----- Rebuilding the vectors of atoms

  /** The atom's vector is the embedding of its words. */
  ghost predicate AtomFresh(meaning: string -> Vec, mem: Memory, id: string) {
    id in mem.atoms && id in mem.atomVecs && mem.atomVecs[id] == meaning(mem.atoms[id].content)
  }

  ghost predicate Listed(mem: Memory, rows: seq<string>, id: string) { id in rows && id in mem.atoms }

  lemma AtomStepFreshens(oracle: Oracle, meaning: string -> Vec, db: Db, id: string)
    requires Deterministic(oracle, meaning)
    ensures var o := ReembedAtom(oracle, db, id);
            && o.db == db.(mem := db.mem.(atomVecs := o.db.mem.atomVecs), embedCalls := o.db.embedCalls)
            && (o.ok ==> forall x :: AtomFresh(meaning, o.db.mem, x) <==> AtomFresh(meaning, db.mem, x) || (x == id && x in db.mem.atoms))
            && (o.ok ==> forall x :: x in o.db.mem.atomVecs <==> x in db.mem.atomVecs || (x == id && x in db.mem.atoms))
  {
  }

  lemma {:induction false} AtomRebuild(oracle: Oracle, meaning: string -> Vec, db: Db, k: nat)
    requires Deterministic(oracle, meaning) && k <= |db.mem.atomRows|
    ensures var o := ReembedAtoms(oracle, db, k);
            && o.db == db.(mem := db.mem.(atomVecs := o.db.mem.atomVecs), embedCalls := o.db.embedCalls)
            && (o.ok ==> forall x :: AtomFresh(meaning, o.db.mem, x) <==> AtomFresh(meaning, db.mem, x) || Listed(db.mem, db.mem.atomRows[k..], x))
            && (o.ok ==> forall x :: x in o.db.mem.atomVecs <==> x in db.mem.atomVecs || Listed(db.mem, db.mem.atomRows[k..], x))
    decreases |db.mem.atomRows| - k
  {
    if k < |db.mem.atomRows| {
      var id := db.mem.atomRows[k];
      var o := ReembedAtom(oracle, db, id);
      AtomStepFreshens(oracle, meaning, db, id);
      assert db.mem.atomRows[k..] == [id] + db.mem.atomRows[k + 1..];
      if o.ok { AtomRebuild(oracle, meaning, o.db, k + 1); }
    }
  }

  lemma {:induction false} SceneRebuildKeepsMemory(env: Env, oracle: Oracle, db: Db, k: nat)
    ensures ReembedScenes(env, oracle, db, k).db.mem == db.mem
    decreases |db.sceneRows| - k
  {
    if k < |db.sceneRows| && ReembedScene(env, oracle, db, db.sceneRows[k]).ok {
      SceneRebuildKeepsMemory(env, oracle, ReembedScene(env, oracle, db, db.sceneRows[k]).db, k + 1);
    }
  }

  /** A rebuild that succeeds leaves a vector for exactly the listed atoms, each the embedding of
      its words; whether it succeeds or not, it changes nothing else of the memory. */
  lemma AtomsRebuiltExactly(env: Env, oracle: Oracle, meaning: string -> Vec, db: Db, id: string)
    requires Deterministic(oracle, meaning)
    ensures var o := ReembedAll(env, oracle, db);
            && o.db.mem == db.mem.(atomVecs := o.db.mem.atomVecs)
            && (o.ok ==> (id in o.db.mem.atomVecs <==> Listed(db.mem, db.mem.atomRows, id)))
            && (o.ok && id in o.db.mem.atomVecs ==> AtomFresh(meaning, o.db.mem, id))
  {
    var dropped := Dropped(db);
    AtomRebuild(oracle, meaning, dropped, 0);
    assert dropped.mem.atomRows[0..] == db.mem.atomRows;
    var o := ReembedAtoms(oracle, dropped, 0);
    if o.ok { SceneRebuildKeepsMemory(env, oracle, o.db, 0); }
  }
}
