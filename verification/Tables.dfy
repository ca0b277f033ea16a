/**
 The tables of one FALDA store, as values: T0 stream, T1 atoms with their two
 indexes and evidence, T2 scenes with their vector index, and the T3 core. A SQL
 statement becomes an update of one of these fields.
 */
module Tables {

  datatype Option<+T> = None | Some(value: T)

  type Vec = seq<real>

  type Similarity = (Vec, Vec) -> real

  // ----- T0 and T1

  /** One stream row; `seq` is the store-wide insertion number. */
  datatype Turn = Turn(id: string, session: string, content: string, seqNo: nat)

  datatype AtomStatus = Active | Superseded | Merged | Archived

  /** The atom columns a caller may change after the atom was recorded. */
  datatype Metadata = Metadata(background: Option<string>, priority: int, confidence: string, pinned: bool,
                               tags: seq<string>)

  datatype Atom = Atom(kind: string, content: string, meta: Metadata, status: AtomStatus)

  /** A row of the text index, whose id column is not unique. */
  datatype FtsRow = FtsRow(id: string, content: string)

  datatype Edge = Edge(atomId: string, streamId: string)

  datatype Memory = Memory(
    stream: seq<Turn>,
    atoms: map<string, Atom>,
    atomRows: seq<string>,
    atomFts: seq<FtsRow>,
    atomVecs: map<string, Vec>,
    evidence: seq<Edge>,
    watermark: Option<nat>)

  predicate IsActive(mem: Memory, id: string) {
    id in mem.atoms && mem.atoms[id].status == Active
  }

  // ----- T2 and T3

  datatype SceneKind = Episode | Topic

  datatype SceneStatus = Live | Retired

  datatype Scene = Scene(
    kind: SceneKind,
    title: string,
    atomIds: seq<string>,
    summary: Option<string>,
    contentHash: Option<string>,
    renderHash: Option<string>,
    status: SceneStatus,
    derivedFrom: Option<seq<string>>,
    supersededBy: Option<seq<string>>)

  /** `sceneRows` lists scene ids in insertion order. The two counters number the
      calls made so far to the language model and to the embedder; `minted` numbers
      the random scene ids handed out. */
  datatype Db = Db(
    mem: Memory,
    scenes: map<string, Scene>,
    sceneRows: seq<string>,
    sceneVecs: map<string, Vec>,
    core: string,
    coreState: Option<string>,
    dirty: bool,
    minted: nat,
    llmCalls: nat,
    embedCalls: nat)

  /** What the code takes from its surroundings: the digest, the ids derived from it,
      the supply of random ids and the clock-based provisional titles. */
  datatype Env = Env(
    sha: string -> string,
    episodeId: string -> string,
    uuid: nat -> string,
    provisionalTitle: nat -> string)

  /** Tuning of the topic reconciliation. */
  datatype Options = Options(sim: Similarity, topicThreshold: real, matchThreshold: real, reorgThreshold: real)

  /** The two remote services. The n-th call may fail or answer anything. */
  datatype Oracle = Oracle(llm: nat -> Option<string>, embed: (nat, string) -> Option<Vec>)

  /** State after a step that may have thrown half-way. */
  datatype Out = Out(db: Db, ok: bool)
}
