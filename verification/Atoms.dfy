/**
 Writing atoms, their two index rows, their evidence edges and their lifecycle status.
 Every statement that can throw inside a transaction yields a fault instead.
 */
module Atoms {
  import opened Tables

  datatype Fault =
    | TargetMissing(id: string)
    | TargetInactive(id: string)
    | ContentImmutable(id: string)
    | KindImmutable(id: string)
    | DuplicateVector(id: string)
    | ForeignKey(streamId: string)

  datatype Result<+T> = Ok(value: T) | Err(fault: Fault) {
    predicate IsFailure() { Err? }
    function PropagateFailure<U>(): Result<U>
      requires Err?
    {
      Err(fault)
    }
    function Extract(): T
      requires Ok?
    {
      value
    }
  }

  /** A normalised write with its precomputed embedding. */
  datatype AtomWrite = AtomWrite(id: string, kind: string, content: string, meta: Metadata, vec: Vec)

  /** What happens to an existing row's metadata: overwritten, or left as a caller set it. */
  datatype ExistingPolicy = Overwrite | Preserve

  function WithoutFts(rows: seq<FtsRow>, id: string): seq<FtsRow> {
    if rows == [] then []
    else (if rows[0].id == id then [] else [rows[0]]) + WithoutFts(rows[1..], id)
  }

  function WriteAtom(mem: Memory, w: AtomWrite, policy: ExistingPolicy): Result<Memory> {
    if w.id in mem.atoms then
      var stored := mem.atoms[w.id];
      if stored.content != w.content then Err(ContentImmutable(w.id))
      else if stored.kind != w.kind then Err(KindImmutable(w.id))
      else
        var row := if policy == Overwrite then stored.(meta := w.meta) else stored;
        Ok(mem.(atoms := mem.atoms[w.id := row],
                atomFts := WithoutFts(mem.atomFts, w.id) + [FtsRow(w.id, w.content)],
                atomVecs := mem.atomVecs[w.id := w.vec]))
    else if w.id in mem.atomVecs then Err(DuplicateVector(w.id))
    else
      Ok(mem.(atoms := mem.atoms[w.id := Atom(w.kind, w.content, w.meta, Active)],
              atomRows := mem.atomRows + [w.id],
              atomFts := mem.atomFts + [FtsRow(w.id, w.content)],
              atomVecs := mem.atomVecs[w.id := w.vec]))
  }

  function StreamIds(stream: seq<Turn>): (ids: seq<string>)
    ensures |ids| == |stream|
    ensures forall i :: 0 <= i < |ids| ==> ids[i] == stream[i].id
  {
    seq(|stream|, i requires 0 <= i < |stream| => stream[i].id)
  }

  /** `INSERT OR IGNORE`: an edge already there is skipped, a dangling one is refused. */
  function AddEdge(mem: Memory, atomId: string, streamId: string): Result<Memory> {
    if Edge(atomId, streamId) in mem.evidence then Ok(mem)
    else if streamId !in StreamIds(mem.stream) || atomId !in mem.atoms then Err(ForeignKey(streamId))
    else Ok(mem.(evidence := mem.evidence + [Edge(atomId, streamId)]))
  }

  function AddEvidence(mem: Memory, atomId: string, streamIds: seq<string>): Result<Memory>
    decreases |streamIds|
  {
    if streamIds == [] then Ok(mem)
    else
      var next :- AddEdge(mem, atomId, streamIds[0]);
      AddEvidence(next, atomId, streamIds[1..])
  }

  function EvidenceOf(edges: seq<Edge>, atomId: string): (ids: seq<string>)
    ensures forall s :: s in ids <==> Edge(atomId, s) in edges
  {
    if edges == [] then []
    else
      assert edges == [edges[0]] + edges[1..];
      (if edges[0].atomId == atomId then [edges[0].streamId] else []) + EvidenceOf(edges[1..], atomId)
  }

  function SetStatus(mem: Memory, id: string, status: AtomStatus): Memory {
    if id in mem.atoms then mem.(atoms := mem.atoms[id := mem.atoms[id].(status := status)]) else mem
  }

  function MergeAll(mem: Memory, ids: seq<string>): Memory
    decreases |ids|
  {
    if ids == [] then mem else MergeAll(SetStatus(mem, ids[0], Merged), ids[1..])
  }

  /** Archiving touches active atoms only. */
  function ArchiveAtom(mem: Memory, id: string): Memory {
    if IsActive(mem, id) then SetStatus(mem, id, Archived) else mem
  }
}
