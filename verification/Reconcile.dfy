/**
 The L2/L3 half of a distillation pass: episode scenes, topic scenes, hash-gated
 narration of changed scenes, hash-gated core synthesis, and the completeness gate
 that decides whether the store is clean.
 */
module Reconcile {
  import opened Tables
  import opened Text
  import opened TextOrder
  import opened Scenes
  import opened Topics

  // ----- Episodes: a projection of evidence by session

  /** Each value once, in order of first appearance. */
  function Unique(s: seq<string>): (r: seq<string>)
    ensures forall x :: x in r <==> x in s
    ensures Distinct(r)
  {
    if s == [] then []
    else
      var front := Unique(s[..|s| - 1]);
      var x := s[|s| - 1];
      assert s == s[..|s| - 1] + [x];
      if x in front then front else front + [x]
  }

  function SessionsOf(stream: seq<Turn>, streamId: string): (r: seq<string>) {
    if stream == [] then []
    else (if stream[0].id == streamId then [stream[0].session] else []) + SessionsOf(stream[1..], streamId)
  }

  /** The rows of `atom_evidence` joined with `stream`: (atom, session). */
  datatype Trace = Trace(atomId: string, session: string)

  function Traces(mem: Memory, edges: seq<Edge>): seq<Trace> {
    if edges == [] then []
    else
      var ss := SessionsOf(mem.stream, edges[0].streamId);
      seq(|ss|, i requires 0 <= i < |ss| => Trace(edges[0].atomId, ss[i])) + Traces(mem, edges[1..])
  }

  function TraceSessions(ts: seq<Trace>): seq<string> {
    seq(|ts|, i requires 0 <= i < |ts| => ts[i].session)
  }

  function AtomsFrom(ts: seq<Trace>, session: string): seq<string> {
    if ts == [] then []
    else (if ts[0].session == session then [ts[0].atomId] else []) + AtomsFrom(ts[1..], session)
  }

  /** Sessions that some atom's evidence points into. */
  function Sessions(mem: Memory): (r: seq<string>)
    ensures Distinct(r)
  {
    Unique(TraceSessions(Traces(mem, mem.evidence)))
  }

  function SessionAtoms(mem: Memory, session: string): seq<string> {
    ActiveIds(mem, Unique(AtomsFrom(Traces(mem, mem.evidence), session)))
  }

  function EpisodeTitle(db: Db, id: string, session: string): string {
    if id in db.scenes then db.scenes[id].title else "Session " + session
  }

  function EpisodeStep(env: Env, oracle: Oracle, db: Db, session: string): Out {
    var id := (env.episodeId)(session);
    var members := SessionAtoms(db.mem, session);
    if members == [] then
      if id in db.scenes
      then Upsert(env, oracle, db, id, Structural(Episode, db.scenes[id].title, [], Retired))
      else Out(db, true)
    else Upsert(env, oracle, db, id, Structural(Episode, EpisodeTitle(db, id, session), members, Live))
  }

  function EpisodePhase(env: Env, oracle: Oracle, db: Db, sessions: seq<string>): Out
    decreases |sessions|
  {
    if sessions == [] then Out(db, true)
    else
      var o := EpisodeStep(env, oracle, db, sessions[0]);
      if !o.ok then o else EpisodePhase(env, oracle, o.db, sessions[1..])
  }

  // ----- Digests of what a prompt would consume

  function KindName(kind: SceneKind): string {
    match kind case Episode => "episode" case Topic => "topic"
  }

  /** "id:content" for each active member, in the given order. */
  function MemberTexts(mem: Memory, ids: seq<string>): seq<string> {
    if ids == [] then []
    else (if IsActive(mem, ids[0]) then [ids[0] + ":" + mem.atoms[ids[0]].content] else []) + MemberTexts(mem, ids[1..])
  }

  function SceneHash(env: Env, mem: Memory, kind: SceneKind, atomIds: seq<string>): string {
    (env.sha)(KindName(kind) + "|" + Join(MemberTexts(mem, SortIds(atomIds)), "|"))
  }

  predicate IsLive(db: Db, id: string) {
    id in db.scenes && db.scenes[id].status == Live
  }

  function LiveIds(db: Db, ids: seq<string>): (r: seq<string>)
    ensures forall id :: id in r <==> id in ids && IsLive(db, id)
  {
    if ids == [] then []
    else (if IsLive(db, ids[0]) then [ids[0]] else []) + LiveIds(db, ids[1..])
  }

  function CoreParts(db: Db, ids: seq<string>): seq<string>
    requires forall id :: id in ids ==> id in db.scenes
  {
    if ids == [] then []
    else
      var sc := db.scenes[ids[0]];
      [KindName(sc.kind) + "|" + sc.title + "|" + Join(MemberTexts(db.mem, SortIds(sc.atomIds)), "|")]
      + CoreParts(db, ids[1..])
  }

  lemma SortKeepsMembers(ids: seq<string>)
    ensures forall x :: x in SortIds(ids) <==> x in ids
  {
    SameElements(SortIds(ids), ids);
  }

  function CoreHash(env: Env, db: Db): string {
    var ids := LiveIds(db, db.sceneRows);
    SortKeepsMembers(ids);
    (env.sha)(Join(CoreParts(db, SortIds(ids)), "||"))
  }

  // ----- Narration

  /** `failed` counts narrations whose model call threw; the scene is still written. */
  datatype Narrated = Narrated(db: Db, ok: bool, failed: nat)

  /** What the two model calls leave behind; a failure of the second keeps the new title. */
  datatype Words = Words(db: Db, title: string, summary: Option<string>, failed: bool)

  function Compose(oracle: Oracle, db: Db, row: Row): Words {
    if !(exists id <- row.scene.atomIds :: IsActive(db.mem, id)) then Words(db, row.scene.title, row.scene.summary, false)
    else
      var asked := db.(llmCalls := db.llmCalls + 1);
      match (oracle.llm)(db.llmCalls)
      case None => Words(asked, row.scene.title, row.scene.summary, true)
      case Some(t) =>
        var title := SliceTo(Trim(t), 200);
        var again := asked.(llmCalls := asked.llmCalls + 1);
        match (oracle.llm)(asked.llmCalls)
        case None => Words(again, title, row.scene.summary, true)
        case Some(s) => Words(again, title, Some(Trim(s)), false)
  }

  function NarrationWrite(row: Row, words: Words, hash: string): SceneWrite {
    SceneWrite(row.scene.kind, if words.title == "" then row.scene.title else words.title, row.scene.atomIds,
               Given(words.summary), Given(if words.failed then row.scene.contentHash else Some(hash)),
               Given(Live), Omitted, Omitted)
  }

  function NarrateOne(env: Env, oracle: Oracle, db: Db, row: Row): Narrated {
    var hash := SceneHash(env, db.mem, row.scene.kind, row.scene.atomIds);
    if row.scene.contentHash == Some(hash) then Narrated(db, true, 0)
    else
      var words := Compose(oracle, db, row);
      var o := Upsert(env, oracle, words.db, row.id, NarrationWrite(row, words, hash));
      Narrated(o.db, o.ok, if words.failed then 1 else 0)
  }

  function Narrate(env: Env, oracle: Oracle, db: Db, rows: seq<Row>): Narrated
    decreases |rows|
  {
    if rows == [] then Narrated(db, true, 0)
    else
      var n := NarrateOne(env, oracle, db, rows[0]);
      if !n.ok then n
      else
        var rest := Narrate(env, oracle, n.db, rows[1..]);
        rest.(failed := n.failed + rest.failed)
  }

  function LiveRows(db: Db, ids: seq<string>): seq<Row> {
    if ids == [] then []
    else (if IsLive(db, ids[0]) then [Row(ids[0], db.scenes[ids[0]])] else []) + LiveRows(db, ids[1..])
  }

  // ----- Core synthesis

  /** The flag says whether synthesis was attempted and failed. */
  datatype Synthesised = Synthesised(db: Db, failed: bool)

  function SynthesiseFrom(oracle: Oracle, db: Db, noScenes: bool, hash: string): Synthesised {
    if noScenes then Synthesised(db.(core := "", coreState := None), false)
    else if db.coreState == Some(hash) then Synthesised(db, false)
    else
      var asked := db.(llmCalls := db.llmCalls + 1);
      match (oracle.llm)(db.llmCalls)
      case None => Synthesised(asked, true)
      case Some(text) => Synthesised(asked.(core := text, coreState := Some(hash)), false)
  }

  predicate NoLiveScenes(db: Db) {
    LiveIds(db, db.sceneRows) == []
  }

  function Synthesise(env: Env, oracle: Oracle, db: Db): Synthesised {
    SynthesiseFrom(oracle, db, NoLiveScenes(db), CoreHash(env, db))
  }

  // ----- The pass

  function Finish(env: Env, oracle: Oracle, n: Narrated): Out {
    var s := Synthesise(env, oracle, n.db);
    if n.failed > 0 || s.failed then Out(s.db.(dirty := true), false)
    else Out(s.db.(dirty := false), true)
  }

  /** L2 and L3 of one pass; `ok` is false when it throws. */
  function Pass(env: Env, oracle: Oracle, opts: Options, db: Db): Out {
    var e := EpisodePhase(env, oracle, db, Sessions(db.mem));
    if !e.ok then e
    else
      var t := TopicPhase(env, oracle, opts, e.db);
      if !t.ok then Out(t.db, false)
      else
        var n := Narrate(env, oracle, t.db, LiveRows(t.db, t.db.sceneRows));
        if !n.ok then Out(n.db, false) else Finish(env, oracle, n)
  }
}
