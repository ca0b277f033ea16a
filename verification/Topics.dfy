/**
 Reconciling the topic scenes with freshly derived clusters: each cluster continues
 the best-overlapping topic not yet taken, replaces it when membership has churned
 too far, or starts a topic of its own; topics no cluster took are retired.
 */
module Topics {
  import opened Tables
  import opened TextOrder
  import opened Scenes
  import opened SceneFrames
  import opened Clustering
  import Jaccard

  /** A scene row as the pass read it. */
  datatype Row = Row(id: string, scene: Scene)

  predicate LiveTopic(db: Db, id: string) {
    id in db.scenes && db.scenes[id].kind == Topic && db.scenes[id].status == Live
  }

  function TopicRows(db: Db, ids: seq<string>): seq<Row> {
    if ids == [] then []
    else (if LiveTopic(db, ids[0]) then [Row(ids[0], db.scenes[ids[0]])] else []) + TopicRows(db, ids[1..])
  }

  /** Best unclaimed topic so far: its index, -1 while none overlaps at all. */
  datatype Match = Match(index: int, score: real)

  function BestMatch(members: seq<string>, existing: seq<Row>, matched: set<string>, k: nat): (m: Match)
    requires k <= |existing|
    ensures -1 <= m.index < k
    ensures m.index >= 0 ==> existing[m.index].id !in matched
    ensures m.index >= 0 ==> m.score == Jaccard.Score(members, existing[m.index].scene.atomIds)
  {
    if k == 0 then Match(-1, 0.0)
    else
      var prev := BestMatch(members, existing, matched, k - 1);
      var row := existing[k - 1];
      if row.id in matched then prev
      else
        var score := Jaccard.Score(members, row.scene.atomIds);
        if score > prev.score then Match(k - 1, score) else prev
  }

  /** The topic a cluster continues or replaces, -1 for none. */
  function Chosen(members: seq<string>, existing: seq<Row>, matched: set<string>, matchThreshold: real): (j: int)
    ensures -1 <= j < |existing|
    ensures j >= 0 ==> existing[j].id !in matched
    ensures j >= 0 ==> Jaccard.Score(members, existing[j].scene.atomIds) >= matchThreshold
  {
    var best := BestMatch(members, existing, matched, |existing|);
    if best.index >= 0 && best.score >= matchThreshold then best.index else -1
  }

  /** The state between two clusters; `carriers[i]` is the scene that now holds cluster i. */
  datatype Progress = Progress(db: Db, ok: bool, matched: set<string>, carriers: seq<string>)

  function NextId(db: Db, env: Env): string { (env.uuid)(db.minted) }

  function Mint(db: Db): Db { db.(minted := db.minted + 1) }

  function NewTopic(env: Env, db: Db, members: seq<string>): SceneWrite {
    Structural(Topic, (env.provisionalTitle)(db.minted), members, Live)
  }

  function KeepTopic(row: Row, members: seq<string>): SceneWrite {
    Structural(Topic, row.scene.title, members, Live)
  }

  function RetireTopic(row: Row): SceneWrite {
    Structural(Topic, row.scene.title, row.scene.atomIds, Retired)
  }

  function Create(env: Env, oracle: Oracle, p: Progress, members: seq<string>,
                  derivedFrom: Field<Option<seq<string>>>): Progress {
    var id := NextId(p.db, env);
    var o := Upsert(env, oracle, Mint(p.db), id, NewTopic(env, p.db, members).(derivedFrom := derivedFrom));
    Progress(o.db, o.ok, p.matched, p.carriers + [id])
  }

  function Reorganise(env: Env, oracle: Oracle, p: Progress, row: Row, members: seq<string>): Progress {
    var c := Create(env, oracle, p.(matched := p.matched + {row.id}), members, Given(Some([row.id])));
    if !c.ok then c
    else
      var o := Upsert(env, oracle, c.db, row.id,
                      RetireTopic(row).(supersededBy := Given(Some([NextId(p.db, env)]))));
      c.(db := o.db, ok := o.ok)
  }

  function Continue(env: Env, oracle: Oracle, p: Progress, row: Row, members: seq<string>): Progress {
    var o := Upsert(env, oracle, p.db, row.id, KeepTopic(row, members));
    Progress(o.db, o.ok, p.matched + {row.id}, p.carriers + [row.id])
  }

  function PlaceCluster(env: Env, oracle: Oracle, opts: Options, existing: seq<Row>, p: Progress,
                        members: seq<string>): Progress {
    var j := Chosen(members, existing, p.matched, opts.matchThreshold);
    if j >= 0 then
      var row := existing[j];
      if Jaccard.ChurnFraction(members, row.scene.atomIds) < opts.reorgThreshold
      then Continue(env, oracle, p, row, members)
      else Reorganise(env, oracle, p, row, members)
    else Create(env, oracle, p, members, Omitted)
  }

  function PlaceAll(env: Env, oracle: Oracle, opts: Options, existing: seq<Row>, p: Progress,
                    clusters: seq<seq<string>>): Progress
    decreases |clusters|
  {
    if clusters == [] || !p.ok then p
    else PlaceAll(env, oracle, opts, existing, PlaceCluster(env, oracle, opts, existing, p, clusters[0]), clusters[1..])
  }

  /** One turn of the loop; a turn that throws ends it. */
  lemma PlaceAllTurn(env: Env, oracle: Oracle, opts: Options, existing: seq<Row>, p: Progress,
                     clusters: seq<seq<string>>)
    requires clusters != [] && p.ok
    ensures var q := PlaceCluster(env, oracle, opts, existing, p, clusters[0]);
            && PlaceAll(env, oracle, opts, existing, p, clusters) == PlaceAll(env, oracle, opts, existing, q, clusters[1..])
            && (!q.ok ==> PlaceAll(env, oracle, opts, existing, p, clusters) == q)
  {
  }

  function RetireUnmatched(env: Env, oracle: Oracle, db: Db, existing: seq<Row>, matched: set<string>): Out
    decreases |existing|
  {
    if existing == [] then Out(db, true)
    else if existing[0].id in matched then RetireUnmatched(env, oracle, db, existing[1..], matched)
    else
      var o := Upsert(env, oracle, db, existing[0].id, RetireTopic(existing[0]));
      if !o.ok then o else RetireUnmatched(env, oracle, o.db, existing[1..], matched)
  }

  // ----- The clusters of the active atoms

  function ActiveIds(mem: Memory, rows: seq<string>): (ids: seq<string>)
    ensures forall id :: id in ids <==> id in rows && IsActive(mem, id)
  {
    if rows == [] then []
    else (if IsActive(mem, rows[0]) then [rows[0]] else []) + ActiveIds(mem, rows[1..])
  }

  /** Active atoms that have a vector, in the given order. */
  function AtomVecs(mem: Memory, ids: seq<string>): seq<AtomVec> {
    if ids == [] then []
    else (if ids[0] in mem.atomVecs then [AtomVec(ids[0], mem.atomVecs[ids[0]])] else []) + AtomVecs(mem, ids[1..])
  }

  function MemberLists(cs: seq<Cluster>): (lists: seq<seq<string>>)
    ensures |lists| == |cs|
    ensures forall i :: 0 <= i < |cs| ==> lists[i] == MemberIds(cs[i])
  {
    seq(|cs|, i requires 0 <= i < |cs| => MemberIds(cs[i]))
  }

  function SortedActive(mem: Memory): seq<string> {
    SortIds(ActiveIds(mem, mem.atomRows))
  }

  function DerivedClusters(opts: Options, mem: Memory): seq<seq<string>> {
    MemberLists(Clusters(opts.sim, opts.topicThreshold, AtomVecs(mem, SortedActive(mem))))
  }

  function Start(db: Db): Progress { Progress(db, true, {}, []) }

  /** The topic half of L2. With no active atom left every live topic is retired. */
  function TopicPhase(env: Env, oracle: Oracle, opts: Options, db: Db): Progress {
    var existing := TopicRows(db, db.sceneRows);
    if SortedActive(db.mem) == [] then
      var o := RetireUnmatched(env, oracle, db, existing, {});
      Progress(o.db, o.ok, {}, [])
    else
      var p := PlaceAll(env, oracle, opts, existing, Start(db), DerivedClusters(opts, db.mem));
      if !p.ok then p
      else
        var o := RetireUnmatched(env, oracle, p.db, existing, p.matched);
        p.(db := o.db, ok := o.ok)
  }
}
