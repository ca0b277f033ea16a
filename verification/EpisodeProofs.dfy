/**
 What an episode holds, read off the tables: the atoms whose evidence leads to a turn of its
 session, and what becomes of its scene.
 */
module EpisodeProofs {
  import opened Tables
  import opened TextOrder
  import opened Scenes
  import opened SceneFrames
  import opened Topics
  import opened TopicFixedPoint
  import opened Reconcile
  import ReconcileProofs

  /** Some evidence of the atom points at a turn of the session. */
  ghost predicate Evidenced(mem: Memory, atomId: string, session: string) {
    exists i, k :: 0 <= i < |mem.evidence| && LeadsTo(mem, i, k, atomId, session)
  }

  ghost predicate LeadsTo(mem: Memory, i: int, k: int, atomId: string, session: string) {
    && 0 <= i < |mem.evidence| && 0 <= k < |mem.stream|
    && mem.evidence[i].atomId == atomId && mem.evidence[i].streamId == mem.stream[k].id && mem.stream[k].session == session
  }

  lemma {:induction false} SessionsOfExactly(stream: seq<Turn>, streamId: string, session: string)
    ensures session in SessionsOf(stream, streamId)
            <==> exists k :: 0 <= k < |stream| && stream[k].id == streamId && stream[k].session == session
  {
    if stream != [] {
      SessionsOfExactly(stream[1..], streamId, session);
      if k :| 0 <= k < |stream[1..]| && stream[1..][k].id == streamId && stream[1..][k].session == session {
        assert stream[k + 1].id == streamId;
      }
      if k :| 0 <= k < |stream| && stream[k].id == streamId && stream[k].session == session && k > 0 {
        assert stream[1..][k - 1].id == streamId;
      }
    }
  }

  /** One of these edges points from the atom to a turn of the session. */
  ghost predicate EdgeTo(mem: Memory, edges: seq<Edge>, atomId: string, session: string) {
    exists e <- edges :: e.atomId == atomId && session in SessionsOf(mem.stream, e.streamId)
  }

  lemma {:induction false} TracesExactly(mem: Memory, edges: seq<Edge>, atomId: string, session: string)
    ensures Trace(atomId, session) in Traces(mem, edges) <==> EdgeTo(mem, edges, atomId, session)
  {
    if edges != [] {
      var ss := SessionsOf(mem.stream, edges[0].streamId);
      var first := seq(|ss|, i requires 0 <= i < |ss| => Trace(edges[0].atomId, ss[i]));
      TracesExactly(mem, edges[1..], atomId, session);
      assert edges == [edges[0]] + edges[1..];
      if edges[0].atomId == atomId && session in ss {
        var i :| 0 <= i < |ss| && ss[i] == session;
        assert first[i] == Trace(atomId, session);
      }
      assert Traces(mem, edges) == first + Traces(mem, edges[1..]);
      assert Trace(atomId, session) in Traces(mem, edges)
        <==> Trace(atomId, session) in first || Trace(atomId, session) in Traces(mem, edges[1..]);
    }
  }

  lemma EdgeToExactly(mem: Memory, atomId: string, session: string)
    ensures EdgeTo(mem, mem.evidence, atomId, session) <==> Evidenced(mem, atomId, session)
  {
    if e :| e in mem.evidence && e.atomId == atomId && session in SessionsOf(mem.stream, e.streamId) {
      var i :| 0 <= i < |mem.evidence| && mem.evidence[i] == e;
      SessionsOfExactly(mem.stream, e.streamId, session);
      var k :| 0 <= k < |mem.stream| && mem.stream[k].id == e.streamId && mem.stream[k].session == session;
      assert LeadsTo(mem, i, k, atomId, session);
    }
    if i, k :| 0 <= i < |mem.evidence| && LeadsTo(mem, i, k, atomId, session) {
      SessionsOfExactly(mem.stream, mem.evidence[i].streamId, session);
      assert mem.evidence[i] in mem.evidence;
    }
  }

  lemma {:induction false} AtomsFromExactly(ts: seq<Trace>, session: string, atomId: string)
    ensures atomId in AtomsFrom(ts, session) <==> Trace(atomId, session) in ts
  {
    if ts != [] {
      AtomsFromExactly(ts[1..], session, atomId);
      assert ts == [ts[0]] + ts[1..];
    }
  }

  /** A session's atoms are the active ones with evidence in a turn of that session, each once. */
  lemma SessionAtomsExactly(mem: Memory, session: string)
    ensures forall id :: id in SessionAtoms(mem, session) <==> IsActive(mem, id) && Evidenced(mem, id, session)
    ensures Distinct(SessionAtoms(mem, session))
  {
    var ts := Traces(mem, mem.evidence);
    forall id ensures id in SessionAtoms(mem, session) <==> IsActive(mem, id) && Evidenced(mem, id, session) {
      AtomsFromExactly(ts, session, id);
      TracesExactly(mem, mem.evidence, id, session);
      EdgeToExactly(mem, id, session);
    }
    ActiveIdsDistinct(mem, Unique(AtomsFrom(ts, session)));
  }

  /** The sessions a pass looks at are those some evidence leads to, of active atoms or not. */
  lemma SessionsExactly(mem: Memory, session: string)
    ensures session in Sessions(mem) <==> exists id :: Evidenced(mem, id, session)
  {
    var ts := Traces(mem, mem.evidence);
    if session in Sessions(mem) {
      var i :| 0 <= i < |ts| && TraceSessions(ts)[i] == session;
      assert ts[i] == Trace(ts[i].atomId, session);
      TracesExactly(mem, mem.evidence, ts[i].atomId, session);
      EdgeToExactly(mem, ts[i].atomId, session);
    }
    if id :| Evidenced(mem, id, session) {
      EdgeToExactly(mem, id, session);
      TracesExactly(mem, mem.evidence, id, session);
      var i :| 0 <= i < |ts| && ts[i] == Trace(id, session);
      assert TraceSessions(ts)[i] == session;
    }
  }

  /** What one session's step leaves, from the tables: an episode of exactly its evidenced active
      atoms, titled "Session ..." when it is new and as before when it is not; or, with none
      left, the episode retired and emptied. */
  lemma EpisodeOutcome(env: Env, oracle: Oracle, db: Db, session: string, d: Db)
    requires EpisodeStep(env, oracle, db, session) == Out(d, true)
    ensures var id := (env.episodeId)(session);
            if exists a :: IsActive(db.mem, a) && Evidenced(db.mem, a, session)
            then id in d.scenes && d.scenes[id].kind == Episode && d.scenes[id].status == Live && Distinct(d.scenes[id].atomIds)
              && (forall a :: a in d.scenes[id].atomIds <==> IsActive(db.mem, a) && Evidenced(db.mem, a, session))
              && d.scenes[id].title == (if id in db.scenes then db.scenes[id].title else "Session " + session)
            else if id in db.scenes
            then id in d.scenes && d.scenes[id].kind == Episode && d.scenes[id].status == Retired && d.scenes[id].atomIds == []
              && d.scenes[id].title == db.scenes[id].title
            else d == db
  {
    var id, members := (env.episodeId)(session), SessionAtoms(db.mem, session);
    SessionAtomsExactly(db.mem, session);
    if members != [] {
      assert members[0] in members;
      UpsertStores(env, oracle, db, id, Structural(Episode, EpisodeTitle(db, id, session), members, Live));
    } else if id in db.scenes {
      UpsertStores(env, oracle, db, id, Structural(Episode, db.scenes[id].title, [], Retired));
    }
  }

  /** So it is for every session once a pass has returned: the episode of a session with active
      evidence is live and holds exactly its atoms, and another session's is retired and empty. */
  lemma PassEpisodes(env: Env, oracle: Oracle, opts: Options, db: Db, session: string, found: string)
    requires CollisionFree(env) && WellFormed(env, db) && Distinct(db.mem.atomRows)
    requires Pass(env, oracle, opts, db).ok && Evidenced(db.mem, found, session)
    ensures var d, id := Pass(env, oracle, opts, db).db, (env.episodeId)(session);
            && d.mem == db.mem
            && (id in d.scenes ==>
                 && d.scenes[id].kind == Episode && Distinct(d.scenes[id].atomIds)
                 && (forall a :: a in d.scenes[id].atomIds <==> IsActive(db.mem, a) && Evidenced(db.mem, a, session))
                 && (d.scenes[id].status == Live <==> d.scenes[id].atomIds != []))
            && (IsActive(db.mem, found) ==> id in d.scenes && d.scenes[id].status == Live)
  {
    var d := Pass(env, oracle, opts, db).db;
    ReconcileProofs.PassSettles(env, oracle, opts, db);
    SessionsExactly(db.mem, session);
    SessionAtomsExactly(db.mem, session);
    assert ReconcileProofs.EpisodeSettled(env, d, session);
    assert IsActive(db.mem, found) ==> found in SessionAtoms(db.mem, session);
  }
}
