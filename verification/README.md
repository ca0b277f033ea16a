# FALDA distillation engine: a verified model

FALDA turns a log of conversation turns (T0) into atoms (T1), scenes (T2) and a core document
(T3). This project models the engine that does so, and the queue that drives it, in Dafny, and
proves what its design promises.

The tables of one store are values (`Tables.Db`): a transaction is all or nothing, a scene
write is one step that may stop half-way when the embedder fails. The language model and the
embedder are arbitrary functions of the call number, so every result holds for whatever they
answer and wherever they fail. The digest, the ids derived from it, random ids and clocks are
parameters; a result that needs them to be injective says so. Similarity between vectors is an
arbitrary function.

The code that works step by step is imperative here too: `Store.Falda` is the store object,
`Distill` the steps of a pass, `JobQueue.Table` and `Lane.Distiller` the queue and the worker,
`Capture.CaptureFlushQueue` the plugin's queue. Each such method is proved equal to a value
function, or its effect is stated row by row, and the theorems are proved about the functions.
What a function means is stated again without it: from the replies, the rows and the counts alone
(the `...Exactly` and `...Outcome` lemmas).

| area | files |
|---|---|
| order of keys, strings, tables | `TextOrder`, `Text`, `Tables` |
| L1 planning | `Decisions`, `ReplyProofs`, `Prompts`, `Packing`, `Planning`, `PlanningProofs` |
| L1 transaction | `Atoms`, `Consolidation`, `ConsolidationProofs`, `MemoryProofs`, `Replay` |
| scene rows and vectors | `Scenes`, `SceneFrames`, `SceneCache` |
| topics | `Clustering`, `Jaccard`, `Topics`, `TopicProofs`, `TopicFixedPoint`, `TopicOrder`, `Placement` |
| whole L2/L3 pass | `Reconcile`, `ReconcileProofs`, `EpisodeProofs`, `Digests`, `Renarration`, `FreshPass` |
| stores over whole runs | `Runs`, `CleanFlag`, `FlagAhead` |
| store object, pass steps, the whole pass | `Store`, `StoreProofs`, `Distill`, `OnePass` |
| windows over the turn log | `Windows` |
| queue and worker | `JobQueue`, `Lane`, `LaneProofs`, `JobProofs`, `PendingRows` |
| recall | `Recall`, `RecallProofs` |
| scene-delta log: the rows passes write, the tables they are kept in, and their replay | `DeltaLog`, `Effects`, `Growth`, `AuditLog`, `Histories`, `PassIds` |
| capture plugin | `Capture` |

## Where the code and what is said about it part

These are results about the code as it is; each has a lemma.

- A comment says that a failed narration keeps the provisional title (`src/distill/core.ts:1352-1360`). When only
  the summary call fails the new title is kept (`ReconcileProofs.NarrationOutcome`).
- The default match threshold, 1/2, does not make topic matching independent of cluster order;
  any threshold above it does (`TopicOrder.MatchingDependsOnOrder`, `TopicOrder.MatchingIgnoresOrder`).
- Two candidates of one pass may each reproduce the atom the other replaces: both end superseded
  (`ConsolidationProofs.MutualSupersession`; exactly when a winner ends active: `WinnerActiveExactly`).
- "Exactly one text-index row" fails for a new atom whose id already had stray rows
  (`src/falda.ts:434-438`, `ConsolidationProofs.WinnersIndexedOnce`).
- A title holding a newline can share its render digest with a title and a summary ending in one,
  leaving a stale vector (`SceneCache.NewlineTitleLeavesStaleVector`, exactly when: `WriteFreshExactly`).
- A clean dirty flag does not mean the scenes are in step: a pass that throws before its
  completeness gate leaves the flag alone. A turn, a transaction that only stores and a pass
  whose first embedding fails get there from the empty store (`CleanFlag.CleanFlagLiesOnARun`).
  After a pass a clear flag tells the truth if the flag was set before it - marking the store
  dirty first is enough, whatever the services do - or the gate was reached, or every scene has
  its current vector (`CleanFlag.ClearFlagIsTrue`); from a store whose vectors are all current,
  the pass returned if and only if the flag is clear and they are all current again
  (`CleanFlag.ReturnedExactly`). Before a pass: a clear flag will mean that it returned, whatever
  the services do, if and only if the store is dirty or nothing in it needs the embedder or
  narration (`FlagAhead.FlagTellsExactly`).
- A scene's content digest joins contents with bars and does not escape them: a member that says
  "x|b:y" may be digested like two members (`Digests.BarsAreAmbiguous`). Without bars and colons in
  ids and bars in contents it tells members apart exactly (`Digests.SceneHashTells`).
- A store can have two pending rows at once (`LaneProofs.TwoPendingRowsReachable`): if and only if
  a running job fails short of its last attempt while another row of its store waits, or a startup
  takes back a row beside another (`PendingRows.SecondPendingExactly`, `SinglePendingExactly`).
- Deleting the newest turns lets a later turn reuse a number the watermark has passed
  (`Windows.NewTurnSeenExactly`).
- Passes that share an id overwrite each other's effect row, and the replay may then call a wrong
  membership complete (`DeltaLog.OverwrittenRowMisleads`). A row that fits is right if and only
  if the overwritten step had changed nothing (`DeltaLog.OverwrittenExactly`).
- The effect rows are kept under the pass id, and a retry may or may not share the id of the
  attempt it repeats. A retry under the same id after a failure in L1 leaves no gap: then a topic's
  replay is complete, and right, if and only if every listed pass since its creation reached its
  gate at its last attempt (`Histories.L1RetriesReplay`). An attempt that commits its window and
  then stops keeps its id for good, and is a gap. A later attempt under the id of the creating one
  replaces the creation row, and there is no answer any more (`Histories.TopicHistoryReplays`); the
  exact condition for right answers under any ids is `Histories.TopicHistoryExactly`.
- A part that arrives during a send that fails is overwritten by the text being put back
  (`Capture.NewestTextCanBeLost`, exactly when: `NewestLostExactly`). One that arrives during a send
  that succeeds is never sent (`Capture.LateTextIsStranded`; when the delivered text is the newest:
  `DeliveredNewestExactly`).

## Model

| member | source | states |
|---|---|---|
| Decisions.ValidatesExactly | src/distill/core.ts:251-285 | a reply is accepted as a decision if and only if it is an object that says it - the action's own name, the id list and the rationale - and its targets are distinct, were shown and fit the action's count; every other reply is refused, never read as a skip |
| Decisions.ValidateEncoded | src/distill/core.ts:251-285 | so a stated decision is accepted, unchanged, if and only if its targets are distinct, were shown to the candidate and fit the action's count |
| Decisions.NoRepeatsIsDistinct | src/distill/core.ts:271-272 | comparing the size of the id set with the list finds exactly the lists without repetition |
| Decisions.AcceptAll | src/distill/core.ts:383-392 | the accept loop leaves in each slot the first valid entry stating that index, counts every in-range statement of an index, and knows whether any entry was batch-shaped |
| Decisions.ParseConsolidationBatch | src/distill/core.ts:363-441 | slots and duplicate report are those of the bracketed array if any of its elements states an index, else of the scanned lines as well |
| Decisions.ReportDuplicates | src/distill/core.ts:401-408 | reports each index counted more than once, with its count |
| Decisions.SlotEmptyExactly | src/distill/core.ts:383-392 | a slot stays empty if and only if no entry stating its index is valid |
| Decisions.SlotHoldsFirst | src/distill/core.ts:387-390 | a filled slot holds the earliest valid entry for its index |
| Decisions.ExchangeHarmless | src/distill/core.ts:363-441 | exchanging neighbours that state different indices leaves what each index sees unchanged |
| Decisions.ReorderingHarmless | src/distill/core.ts:363-441 | for any permutation of the entries that keeps those stating one index in their order: the same slots, the same duplicate report, the same verdict whether the reply is batch-shaped |
| Decisions.ReplyOrderHarmless | src/distill/core.ts:363-441 | so for a whole reply, bracketed array and lines: the model may answer for the candidates in any order |
| Decisions.DuplicatesExactly | src/distill/core.ts:401-408 | reported are exactly the indices stated more than once, with exact counts |
| ReplyProofs.IndividualExactly | src/distill/core.ts:796-808 | a candidate's individual reply decides for it exactly when the call answered and the reply says a sound decision over the atoms shown to it |
| ReplyProofs.ReplanExactly | src/distill/core.ts:879-888 | so for a replan, over the shown atoms no earlier decision has taken |
| ReplyProofs.StatedExactly | src/distill/core.ts:378-381 | an entry states an index exactly as an integer in range |
| ReplyProofs.PayloadExactly | src/distill/core.ts:410-441 | the bracketed array is read if an element of it states an index, else the lines |
| ReplyProofs.OutcomeExactly | src/distill/core.ts:809-841 | a candidate of a batch gets the first entry that states its index and says a sound decision, whatever its individual reply; that one is asked for, and counts, only without such an entry |
| ReplyProofs.FinalExactly | src/distill/core.ts:865-898 | a decision stands if no earlier final one of the pass takes a target of it; otherwise the candidate has the sound decision its replan says, over the shown atoms still free |
| Packing.PackConsolidationChunks | src/distill/core.ts:458-502 | chunks concatenate to the input, are non-empty, at most the batch size, within the cap when they hold more than one item; each is as full as greed allows; oversized lone items are reported |
| Packing.FixedStride | src/distill/core.ts:465-471 | with the cap disabled, slices of the batch size form such a packing |
| Packing.PackingOptimal | src/distill/core.ts:458-502 | no order-preserving split obeying the rules has fewer chunks, if prompt length does not grow on a contiguous part |
| Prompts.BatchPromptShrinks | src/distill/prompts.ts:132-169 | the batch prompt of any contiguous part of the candidates, renumbered from 0, is no longer than the whole prompt |
| Prompts.PromptShowsCandidate | src/distill/prompts.ts:138-149 | the batch prompt shows each candidate under its number, with its kind, confidence and content |
| Prompts.PromptShowsNeighbour | src/distill/prompts.ts:139-141 | and every neighbour of each, with id, kind, confidence and content |
| Prompts.DecimalTells | src/distill/prompts.ts:142 | the number shown can be read back |
| Prompts.ConsolidationPackingOptimal | src/distill/core.ts:810-812 | packing real consolidation prompts uses the fewest calls any legal grouping could |
| Planning.DecideSingly | src/distill/core.ts:796-808 | one decision per candidate, each valid for its own shown targets, or a reply that was malformed |
| Planning.DecideByBatch | src/distill/core.ts:809-841 | for any chunking and replies, one decision per candidate: its slot of the batch reply, or its individual reply when the slot is empty |
| Planning.DecideChunk | src/distill/core.ts:814-839 | one chunk extends the decisions so, and fails only if a candidate has neither a slot nor a valid individual reply |
| Planning.DecideChunks | src/distill/core.ts:813-841 | the same over all chunks, by offset |
| Planning.ReconcilePlan | src/distill/core.ts:865-898 | every decision is kept, or replanned against the targets no earlier decision has taken; fails only on a malformed replan |
| Planning.PrepareAtoms | src/distill/core.ts:923-934 | one embedding per distinct winner id, for its own content, covering every op that is not a skip |
| OnePass.PlanL1 | src/distill/core.ts:792-934 | everything before the transaction in sequence: the plan is the reconciled one for the decided candidates, with one prepared write per winner; a pass without turns plans nothing and cannot fail here; otherwise planning fails only on a malformed extraction, an undecided candidate, a malformed replan or a winner that cannot be embedded |
| OnePass.DistillOnce | src/distill/core.ts:591-1503 | the whole pass: skipped exactly when no turn waits and the store is clean; a failed plan changes nothing; the transaction fails if and only if a target is no longer active, so never while the atoms shown to the model are; L2 and L3 then run over what was committed, and the watermark ends at the window's last turn, or where it was without turns |
| OnePass.PlannedWritesHonest | src/distill/core.ts:506-508 | a planned write never uses the derived id of other words |
| OnePass.RunsSuitPasses | src/distill/core.ts:905-934 | over every run, interrupted rebuilds and failed passes included, the memory is as such a pass asks: rows listed, evidence closed, vectors owned, derived ids honest |
| PlanningProofs.ReconciledIsConflictFree | src/distill/core.ts:865-898 | afterwards no decision names a target consumed by an earlier one |
| PlanningProofs.EarliestClaimantKeeps | src/distill/core.ts:865-898 | a candidate none of whose targets was taken before keeps its decision |
| PlanningProofs.PlanCommitsExactly | src/distill/core.ts:946-1068 | for any replies, also over atoms that lack a vector or a text row, the transaction over a reconciled plan commits if and only if its named targets are still active as it opens |
| PlanningProofs.CommitKeepsInvariants | src/distill/core.ts:946-1084 | every commit keeps what that theorem assumes of the tables: closed evidence, content-derived ids, vectors of stored atoms only |
| ConsolidationProofs.CheckTargetsExactly | src/distill/core.ts:528-538 | the assertion passes if and only if every id is an active atom |
| ConsolidationProofs.Phase0Exactly | src/distill/core.ts:947-962 | Phase 0 passes if and only if every update and merge target is active |
| ConsolidationProofs.PhaseAExactly | src/falda.ts:440-489 | the winner writes succeed if and only if each is writable against the tables before; afterwards rows, vectors and text rows are exactly those of the writes |
| ConsolidationProofs.AddEvidenceExactly | src/falda.ts:818-825 | evidence is added if and only if every turn exists, and exactly those edges |
| ConsolidationProofs.PhaseBExactly | src/distill/core.ts:983-1068 | Phase B passes if and only if each decision's targets are active and untaken; statuses and evidence afterwards are given in closed form |
| ConsolidationProofs.CommitsExactly | src/distill/core.ts:946-1084 | the transaction commits if and only if targets are active, decisions do not conflict, winners are writable and the window's turns exist |
| ConsolidationProofs.CommitConsolidates | src/distill/core.ts:946-1084 | a commit refines one map update: winners inserted, losers superseded or merged, evidence joined, indexes replaced, watermark moved only with turns |
| ConsolidationProofs.RetiresExactlyLosers | src/distill/core.ts:983-1057 | exactly the consumed targets leave the active set, all were active, no other stored atom changes |
| ConsolidationProofs.WinnerActiveExactly | src/falda.ts:440-489 | a winner ends active if and only if it was not retired before and no decision of the pass retires it |
| ConsolidationProofs.MutualSupersession | src/distill/core.ts:998-1027 | two candidates reproducing each other's target retire both |
| ConsolidationProofs.EvidenceInherited | src/distill/core.ts:1016-1046 | every edge survives; each update or merge result has its targets' evidence and the window |
| ConsolidationProofs.EvidenceNotInvented | src/distill/core.ts:1016-1046 | a new edge belongs to a winner and points into the window or to a named target's evidence |
| ConsolidationProofs.WinnersIndexedOnce | src/falda.ts:434-489 | each winner ends with its vector, and with exactly one text row if and only if it existed or had none |
| ConsolidationProofs.CommitKeepsIndexOwned | src/falda.ts:440-489 | commits never leave index rows without an atom |
| Replay.SecondRunChangesNothing | src/distill/core.ts:946-1084 | running a committed transaction again commits if and only if it retired nothing, and either way leaves atoms, vectors, evidence, watermark and flag as they are, and one text row for each written atom: no text row more or less if every atom had its one |
| Clustering.ClusterAtoms | src/distill/core.ts:565-587 | the loop computes the leader clustering of its input |
| Clustering.FindNearest | src/distill/core.ts:570-577 | the inner loop finds the earliest most similar founder above similarity -1 |
| Clustering.ClustersPartition | src/distill/core.ts:565-587 | every atom is in exactly one cluster, once, and clusters hold nothing else |
| Clustering.ClustersFoundersApart | src/distill/core.ts:578-584 | a later founder is below the threshold to every earlier one (threshold above -1) |
| Clustering.ClustersWellPlaced | src/distill/core.ts:570-584 | every other atom is at or above the threshold to its founder, and no founder present then was more similar |
| Clustering.ClustersIgnoreRowOrder | src/distill/core.ts:1167-1171 | on id-sorted input the clusters depend only on the set of atoms |
| Jaccard.OverlapCountsIntersection | src/distill/core.ts:1227 | the filter counts the intersection |
| Jaccard.Accounting | src/distill/core.ts:1227-1239 | overlap is symmetric; union and churn follow from sizes and overlap |
| Jaccard.AboveHalfUnique | src/distill/core.ts:1220-1233 | a cluster scores above 1/2 against at most one of two disjoint topics |
| Jaccard.HalfIsShared | src/distill/core.ts:1233 | at exactly 1/2 two clusters can tie for one topic |
| Jaccard.ChurnBound | src/distill/core.ts:1233-1239 | a score of at least m bounds churn by 1/m - 1 of the previous size |
| Jaccard.ChurnBoundTight | src/distill/core.ts:1233-1239 | that bound is attained at m = 1/2 |
| Jaccard.ReorganisationUnreachable | src/distill/core.ts:1241-1257 | a matched topic is never reorganised when the reorganisation threshold exceeds 1/m - 1 |
| TopicProofs.TopicsCarryClusters | src/distill/core.ts:1165-1320 | whatever branches ran, live topics and clusters are in bijection, each topic holding its cluster with a current vector, and other scenes are untouched |
| TopicProofs.ReorganiseLinks | src/distill/core.ts:1257-1282 | a topic replaced for churn is retired with its members and linked both ways to its fresh successor; no other scene changes |
| TopicProofs.ContinueKeeps | src/distill/core.ts:1241-1249 | a kept topic changes its members and nothing else a reader sees |
| TopicFixedPoint.DerivedClustersPartition | src/distill/core.ts:1167-1211 | the derived clusters partition the active atoms that have a vector |
| TopicFixedPoint.TopicsPartitionMemory | src/distill/core.ts:1165-1320 | after the topic phase the live topics partition those atoms, also when there are none |
| TopicFixedPoint.TopicsAtRest | src/distill/core.ts:1218-1319 | if the live topics are the current clusters, nothing is created, retired or rewritten |
| TopicFixedPoint.TopicsAtRestExactly | src/distill/core.ts:1218-1319 | that fixed point holds if and only if the match threshold is at most 1 and the reorganisation threshold positive |
| Placement.ChosenExactly | src/distill/core.ts:1221-1233 | the chosen topic is the earliest of those still free that share the largest positive part of all ids involved, if that part meets the threshold; over sets of ids |
| Placement.PlacementExactly | src/distill/core.ts:1220-1300 | a cluster continues that topic if and only if the ids that came or went are less than the threshold's part of the ids it had, else replaces it; without one it starts a topic |
| Placement.CreatedExactly | src/distill/core.ts:1257-1300 | a new topic has a fresh id and a provisional title, holds its cluster, is live, has no summary and no content hash, and names its parent if it replaces one |
| Placement.DerivedExactly | src/distill/core.ts:565-587 | in terms of the stored vectors: each member of a cluster is at or above the topic threshold to its founder and closer to it than to any founder before; founders are below the threshold to earlier ones |
| Placement.DerivedAscend | src/distill/core.ts:1167-1171 | clusters list their members in ascending id order and come in the order of their founders |
| Placement.TopicsInRowOrder | src/distill/core.ts:1213-1215 | the topics compared with are the live ones, in the order of their rows |
| TextOrder.BeforeExactly | src/distill/core.ts:1167-1171 | the order of keys: at the first difference one text ends or has the smaller code point |
| TopicOrder.PlaceAllChoices | src/distill/core.ts:1218-1300 | the topics a pass claims are those of the greedy choice sequence |
| TopicOrder.MatchingIgnoresOrder | src/distill/core.ts:1218-1235 | above 1/2, reordering the clusters gives each cluster the same topic |
| TopicOrder.MatchingDependsOnOrder | src/distill/core.ts:1218-1235 | up to 1/2 it does not: whichever of two clusters comes first takes the topic |
| SceneCache.SameInputSameText | src/falda.ts:248-250 | equal digest inputs name equal embedded texts if and only if both summaries are blank or neither is |
| SceneCache.PolicyDisambiguates | src/falda.ts:248-250 | titles without newline, or summaries not ending in one, rule the ambiguity out |
| SceneCache.OneBlankIsAmbiguous | src/falda.ts:248-250 | the ambiguity needs a newline in the title and one at the end of the summary |
| SceneCache.RunKeepsBacking | src/falda.ts:897-1015 | over any run of writes, removals and rebuilds with failing calls, a stored vector is the embedding of a text its row's digest names |
| SceneCache.WriteIsFresh | src/falda.ts:991-1015 | after a successful write the vector is the embedding of the scene's own text |
| SceneCache.WriteAgreesWithRebuild | src/falda.ts:1245-1283 | and equals, with its digest, what a rebuild from scratch stores for the scene |
| SceneCache.ReembedAllIsFresh | src/falda.ts:1245-1283 | a successful rebuild makes every scene fresh and changes no text |
| SceneCache.RunKeepsRows | src/falda.ts:897-1044 | runs keep the scene table and its row order in step |
| SceneCache.WriteFreshExactly | src/falda.ts:1000-1011 | a write leaves a fresh vector unless the digest inputs agree and exactly one summary is blank |
| SceneCache.NewlineTitleLeavesStaleVector | src/falda.ts:1000-1011 | a two-write run after which the vector is of the first text |
| SceneFrames.UpsertFrame | src/falda.ts:897-1015 | a write touches its own scene's row and vector only, even when it fails |
| SceneFrames.UpsertStores | src/falda.ts:924-971 | a write that returns stored the given fields, kept the omitted ones and brought vector and digest up to date |
| SceneFrames.UpsertNoop | src/falda.ts:1000-1011 | rewriting what is stored over a current vector makes no call and changes nothing |
| SceneFrames.RemoveUndoesInsert | src/falda.ts:897-1044 | removing a scene that a write has just added restores the store but for the calls spent, also when the write failed |
| ReconcileProofs.PassSettles | src/distill/core.ts:1093-1503 | a pass that returns leaves episodes equal to their sessions' evidence, topics equal to the clusters, every live scene's content hash and the core hash current, memory untouched and the flag clear |
| ReconcileProofs.PassAtRest | src/distill/core.ts:1093-1503 | over a settled store a pass makes no model or embedder call and changes nothing but the flag |
| ReconcileProofs.PassIdempotent | src/distill/core.ts:1093-1503 | hence a dirty-only pass after a pass that returned is free, whatever the services would answer |
| ReconcileProofs.NarrationOutcome | src/distill/core.ts:1335-1373 | title, summary and content hash left by narrating a changed scene, for each pattern of failing calls; a failure keeps the old hash so that the scene is retried |
| ReconcileProofs.EpisodesSettle | src/distill/core.ts:1110-1163 | after the phase the episode of every session mirrors the session's atoms, or is retired and empty; which atoms those are: `SessionAtomsExactly` |
| EpisodeProofs.SessionAtomsExactly | src/falda.ts:839-845 | the atoms of a session are the active ones with an evidence row pointing at a turn of that session, each once |
| EpisodeProofs.SessionsExactly | src/distill/core.ts:1106-1109 | the sessions a pass visits are those that some evidence row leads to |
| EpisodeProofs.EpisodeOutcome | src/distill/core.ts:1110-1163 | what one session's step leaves, from the tables: members, status and title of the episode, or no change |
| EpisodeProofs.PassEpisodes | src/distill/core.ts:1106-1163 | after a pass that returned: the episode of any session some evidence leads to is live exactly if it has members, and these are the active atoms with evidence in a turn of that session |
| Digests.SceneHashTells | src/falda.ts:1198-1206 | for a digest without collisions and plain texts: two scenes have one content hash if and only if they have one kind and the same active members with the same contents, in whatever order |
| Digests.SceneHashIgnoresOrder | src/falda.ts:1198-1206 | order and inactive members never matter, whatever the texts |
| Digests.BarsAreAmbiguous | src/falda.ts:1198-1206 | with a bar in a content two different memberships have one hash |
| Digests.CoreHashTells | src/falda.ts:1210-1224 | two stores have one core hash if and only if their live scenes, in id order, agree in kind, title and active members with their contents |
| Renarration.NarrateOneServes | src/distill/core.ts:1338-1373 | a due scene's words are the two replies to its own calls, trimmed and the title cut to 200; another scene makes no call and keeps its words |
| Renarration.PassCallsExactly | src/distill/core.ts:1332-1446 | a pass that returned called the model twice for each live scene that was due and once for a stale core, and never else |
| Renarration.PassRenarrates | src/distill/core.ts:1332-1390 | in a pass that returned, a live scene last narrated for other active members or contents than it has now gets both calls and their replies as its words; one with the same keeps its words |
| Renarration.SynthesisOutcome | src/distill/core.ts:1399-1446 | no live scene: the core is gone; a current hash: no call, no change; otherwise the reply to the one call becomes the core beside the new hash, and a failed call leaves both and is reported |
| Renarration.PassWritesCore | src/distill/core.ts:1399-1446 | after a pass that returned the core is empty without live scenes, as it was if it was made of what there is now, and otherwise the last reply |
| ReconcileProofs.SynthesisSettles | src/distill/core.ts:1393-1446 | unless it failed, the core's stored input hash is current, and the core is gone when no scene is live; what else the core then is: `SynthesisOutcome` |
| FreshPass.PassKeepsCached | src/distill/core.ts:1093-1503 | wherever a pass stops, stored vectors are embeddings of the text their digests name: narration trims what it writes |
| FreshPass.PassFreshens | src/falda.ts:991-1015 | a pass that returns leaves every live topic, and every stored episode of a session with evidence, with the embedding of its own title and summary |
| FreshPass.OnePassFreshens | src/falda.ts:991-1015 | so from every state a run reaches in which callers store no summary ending in a line break |
| Runs.PassKept | src/distill/core.ts:1093-1503 | wherever a pass stops it keeps the scene table well formed; it clears the flag exactly when it returns, sets it when the gate fails, leaves it alone when it throws earlier |
| Runs.RunsAreSound | src/distill/core.ts:704-1503 | in every state reachable by turns, transactions, failing passes, lifecycle calls, scene calls - on any scene there is or was - and rebuilds, the scene table is well formed, atoms and their rows agree, evidence is closed and no vector is left over |
| Runs.OnePassSettles | src/distill/core.ts:1093-1503 | from any such state one pass that returns settles the store and makes the next one free |
| CleanFlag.GateTracks | src/distill/core.ts:1093-1503 | a pass that misses its gate leaves a scene without its current vector; one that reaches it keeps them all current |
| CleanFlag.ClearFlagIsTrue | src/distill/core.ts:1482-1501 | after a pass, a clear flag means a returned pass and a settled store if the flag was set before, the gate was reached, or every scene has its current vector |
| CleanFlag.ReturnedExactly | src/distill/core.ts:1482-1501 | from current vectors, whatever the services do, the pass returned if and only if the flag is clear and the vectors are current |
| CleanFlag.FlagAfterPlanned | src/distill/core.ts:946-1503 | a pass that throws after its transaction leaves the flag set if and only if it was set before, a decision retired an atom, or the gate was reached |
| CleanFlag.CleanFlagCanLie | src/distill/core.ts:1482-1501 | a pass may throw with the flag clear and the store unsettled |
| CleanFlag.CleanFlagLiesOnARun | src/distill/core.ts:1482-1501 | three steps from the empty store end so, with no turn waiting |
| FlagAhead.FlagTellsExactly | src/distill/core.ts:1093-1503 | told before the pass: for every behaviour of the services, a clear flag afterwards means that the pass returned, if and only if the store is dirty or its scenes fall into place without a service and none of them needs narration |
| Store.Falda.StreamHeadSeq | src/falda.ts:593-596 | the greatest sequence number, 0 for an empty log |
| Store.Falda.AddTurn | src/falda.ts:493-498 | appends one turn numbered one above the head |
| Store.Falda.WriteAtomWithEmbeddingSync | src/falda.ts:440-489 | inserts or repairs one atom and its index rows under the given policy; a refused write changes nothing |
| Store.Falda.AddEvidence | src/falda.ts:818-825 | adds the edges one by one, stopping at the first refused |
| Store.Falda.SupersedeAtom | src/falda.ts:707-714 | the atom, if stored, is superseded and keeps all else; no other row changes; the store is dirty |
| Store.Falda.MergeAtoms | src/falda.ts:717-726 | marks every loser merged, and the store dirty if there is one |
| Store.Falda.ArchiveAtom | src/falda.ts:734-743 | archives an active atom and marks the store dirty only then |
| Store.Falda.UpsertScene | src/falda.ts:897-915 | mints an id if none is given, writes the row, then syncs the vector |
| Store.Falda.SyncSceneStructure | src/falda.ts:924-971 | one row is new or changed, a new one comes last; given columns are stored, omitted ones kept, or empty in a new row; the digest column stays |
| Store.Falda.SyncSceneRendering | src/falda.ts:991-1015 | re-embeds exactly when the vector is missing or the digest differs |
| Store.Falda.RemoveScene | src/falda.ts:1037-1044 | the scene has no row, vector or place in the order; every other scene keeps all three |
| Store.Falda.ReembedAll | src/falda.ts:1245-1283 | drops both indexes and re-embeds row by row, stopping at the first failure |
| StoreProofs.AppendExactly | src/falda.ts:493-498 | a turn is appended under a number if and only if that is the least from 1 on above all others |
| StoreProofs.WriteExactly | src/falda.ts:440-489 | when a write is refused, and otherwise every column of the atom, its one vector and its text row; the two policies differ in the metadata of a stored atom only |
| StoreProofs.MergeExactly | src/falda.ts:717-726 | exactly the stored losers become merged, and nothing else changes |
| StoreProofs.ArchiveExactly | src/falda.ts:734-743 | exactly an active atom becomes archived |
| StoreProofs.AtomsRebuiltExactly | src/falda.ts:1245-1266 | after a successful rebuild exactly the listed atoms have a vector, each the embedding of its content; no rebuild changes anything else of the memory |
| Store.Falda.ComputeSceneHash | src/falda.ts:1198-1206 | digest of kind and sorted active members; what it tells apart: `SceneHashTells` |
| Store.Falda.ComputeCoreHash | src/falda.ts:1210-1224 | digest over the live scenes by id |
| Distill.CommitL1 | src/distill/core.ts:946-1084 | runs the three phases in place and restores every table on a fault |
| Distill.AssertTargetsActive | src/distill/core.ts:528-538 | reports the first missing or inactive target |
| Distill.ApplyDecision | src/distill/core.ts:981-1067 | evidence then lifecycle for one decision, marking the store dirty exactly when something is retired |
| Distill.DistillEpisodes | src/distill/core.ts:1110-1163 | the episode loop; its turns leave what `EpisodeOutcome` says |
| Distill.FindBestMatch | src/distill/core.ts:1221-1231 | the earliest unclaimed topic of greatest positive Jaccard score |
| Distill.PlaceTopic | src/distill/core.ts:1233-1300 | keep, replace or create for one cluster |
| Distill.DistillTopics | src/distill/core.ts:1165-1320 | the topic phase, with its zero-atom branch |
| Distill.NarrateScenes | src/distill/core.ts:1332-1390 | hash-gated narration of the live scenes, counting failures |
| Distill.SynthesizeCore | src/distill/core.ts:1399-1446 | hash-gated core synthesis, with the outcome `SynthesisOutcome` gives |
| Distill.ReconcileScenes | src/distill/core.ts:1093-1503 | the whole of L2 and L3 with its completeness gate |
| Distill.DistillPlanned | src/distill/core.ts:936-1503 | a fault in L1 changes nothing; a failure after it leaves L1 committed |
| Windows.HeadIsMax | src/falda.ts:593-596 | the head is the maximum sequence number |
| Windows.CommitMovesCursor | src/distill/core.ts:1074-1076 | moving the watermark to the window's last turn takes exactly that window off the backlog |
| Windows.WatermarkMonotone | src/distill/watermark.ts:34-56 | over any run the watermark never moves back and committed windows are never taken back |
| Windows.ExactlyOnce | src/distill/core.ts:628-645 | over any run of arrivals, failures and retries a turn is in exactly one committed window if and only if its number is at or below the watermark |
| Windows.WindowsAreConsecutive | src/distill/core.ts:628-645 | the committed windows followed by the backlog are the log |
| Windows.DrainBacklog | src/distill/core.ts:591-663 | when every pass commits and completes, a fixed backlog takes exactly ceil(backlog / window) passes |
| Windows.BacklogIsDistance | src/falda.ts:493-498 | over any run the backlog is the distance from the watermark to the head |
| Windows.DrainTakesExactly | src/distill/core.ts:591-663 | once turns stop arriving, however L1 failures, dirty-only passes and L2 or L3 failures are interleaved, the watermark reaches the head exactly when ceil((head - watermark) / window) further windows are committed |
| Windows.DueUntilComplete | src/distill/core.ts:640-646 | a store marked dirty stays so over any run until a pass completes, and no pass is skipped meanwhile |
| Windows.NewTurnSeenExactly | src/falda.ts:495-498 | a new turn is seen by the next pass if and only if the log still reaches the watermark |
| JobQueue.Table.EnqueueJob | src/distill/queue.ts:118-141 | coalesces with the store's pending row, raising its priority if higher, else inserts |
| JobProofs.EnqueueCoalesces | src/distill/queue.ts:118-133 | the store's first waiting row keeps the higher priority, with the origin of the request that raised it, and all else; other rows stay |
| JobProofs.EnqueueInserts | src/distill/queue.ts:135-140 | without one, a row due at once and never claimed is added last |
| JobProofs.ClaimIndexExactly | src/distill/queue.ts:163-182 | the row to claim is, for exactly one row, the free one that outranks all other free ones, and there is none exactly when no row is free |
| JobProofs.FailOutcome | src/distill/queue.ts:202-219 | a failed job keeps the error and gives up its lease; at 8 attempts it is dead, before that it waits 15 s, 30 s, 1, 2, 4, 8 or 15 min |
| JobProofs.StepClaims | src/distill/worker.ts:266-307 | a timed drain on a free lane claims the first free row of any priority; a round of a wake pass short of the fiftieth the first of priority 10 or more; no other event claims; a claim writes exactly status, attempt, lease and worker |
| JobProofs.ReturnedPassCompletes | src/distill/worker.ts:244-257 | a pass that returns completes its own job and changes no other |
| JobProofs.RestartRecovers | src/distill/worker.ts:216-226 | a starting worker takes back exactly the claims whose lease is missing or over and holds nothing |
| JobQueue.Table.ClaimNext | src/distill/queue.ts:163-191 | claims the ready row that precedes all others, counting the attempt |
| JobQueue.Table.CompleteJob | src/distill/queue.ts:193-198 | the job is done and nobody holds it; its history and every other row stay |
| JobQueue.Table.FailJob | src/distill/queue.ts:202-219 | reschedules with backoff or marks dead |
| JobQueue.Table.RecoverStaleJobs | src/distill/queue.ts:233-244 | running rows whose lease is missing or over, and no others, become pending with their history; the result counts the rows changed |
| JobQueue.ClaimIndex | src/distill/queue.ts:179-182 | the chosen row is ready and precedes every other ready row |
| Lane.Distiller.constructor | src/distill/worker.ts:216-226 | starting up recovers stale claims and holds no lane |
| Lane.Distiller.DrainTick | src/distill/worker.ts:289-295 | a tick takes a free lane and claims at most one job |
| Lane.Distiller.AcquireForWake | src/distill/worker.ts:266-282 | takes the lane only if it is free and the worker is not stopping |
| Lane.Distiller.WakeNow | src/distill/worker.ts:407-415 | starts a wake pass on a free lane, latches on a busy one, does nothing when stopping |
| Lane.Distiller.WakeLoop | src/distill/worker.ts:300-307 | the next round of the bounded claim loop |
| Lane.Distiller.JobSettled | src/distill/worker.ts:244-257 | completes or fails the claimed row |
| Lane.Distiller.ReleaseLane | src/distill/worker.ts:271-279 | releases the lane and serves a latched wake |
| Lane.Distiller.Stop | src/distill/worker.ts:383-386 | stops |
| LaneProofs.NextExclusive | src/distill/worker.ts:266-307 | every event keeps at most one body on the lane and a latched wake behind a busy lane or a stop; claims happen only for the body holding it, never while stopping or while a job runs |
| LaneProofs.RunExclusive | src/distill/worker.ts:266-307 | so over every interleaving, crashes included |
| LaneProofs.StoppedClaimsNothing | src/distill/worker.ts:383-386 | after stop() this process claims nothing more |
| LaneProofs.RunningJobNotReclaimed | src/distill/queue.ts:163-191 | while a claimed job's pass runs nothing is claimed, even after its lease expired |
| LaneProofs.WakeIsServed | src/distill/worker.ts:407-415 | after wake(), unless stopped, a wake pass begins within 103 further steps of the lane's body |
| LaneProofs.RetriesAndRowsBounded | src/distill/queue.ts:118-244 | attempts equal claims and exceed 8 by at most the abandoned leases; a dead job with none was claimed exactly 8 times; a store has at most 2 open rows plus one per crash |
| LaneProofs.FailedPassOutcome | src/distill/queue.ts:202-219 | a failing job is dead if and only if it was claimed 8 times; else it waits 30 s doubling to 8 min, then 15 min |
| LaneProofs.TwoPendingRowsReachable | src/distill/queue.ts:214-218 | a run without crashes that leaves two pending rows of one store |
| PendingRows.SecondPendingExactly | src/distill/queue.ts:118-244 | from at most one pending row of a store, an event leaves more if and only if it fails a running job of that store short of its last attempt while another row waits, or is a startup that takes back a row beside another |
| PendingRows.SinglePendingExactly | src/distill/queue.ts:118-244 | a store never has two pending rows in a run if and only if the run has no such event |
| Recall.AssembleContext | src/distill/context.ts:95-205 | the assembly of the laid-out tiers, or an error when the weights do not sum above 0; the shares behind it: `SharesExactly`, what it shows: `ContextExactly` |
| Recall.FillTiers | src/distill/context.ts:114-204 | tiers are filled in order, each passing its slack on |
| Recall.GatherPinned | src/distill/context.ts:128-138 | the pinned loop with its break |
| Recall.GatherRanked | src/distill/context.ts:141-163 | the ranked loop, skipping pinned ids and what does not fit |
| Recall.GatherScenes | src/distill/context.ts:166-182 | the scene loop |
| Recall.TakeCore | src/distill/context.ts:185-195 | the core excerpt, cut to its cap or omitted |
| Recall.AllowancesShareBudget | src/distill/context.ts:101-112 | the four shares add up to the budget and none is negative when no weight is; each on its own: `SharesExactly` |
| RecallProofs.SharesExactly | src/distill/context.ts:101-112 | the pinned, ranked and scene shares are each the whole part of the budget times that tier's own weight over their sum; the core gets the rest |
| RecallProofs.WeightsExactly | src/distill/context.ts:53-58 | weights left out count as 0.20, 0.40, 0.25 and 0.15 |
| RecallProofs.DefaultShares | src/distill/context.ts:53-58 | without overrides: a fifth, two fifths and a quarter of the budget, rounded down |
| RecallProofs.CapsExactly | src/distill/context.ts:129-195 | each tier's cap is its share plus all that earlier tiers were given and did not use; the core is shown, cut to its cap, if that is above 50 |
| RecallProofs.LimitsExactly | src/distill/context.ts:149-170 | how many hits are asked for, in terms of the cap |
| RecallProofs.TruncateExactly | src/distill/context.ts:39-41 | a text within the limit is kept; a longer one keeps its beginning and ends in three dots, at the limit |
| RecallProofs.SceneTextExactly | src/distill/context.ts:166-182 | a scene shows kind, title and a summary that is there |
| RecallProofs.RankedExactly | src/distill/context.ts:141-152 | the ranked candidates are the hits that are not pinned, in order, with their own ids, scores and texts |
| RecallProofs.ChosenExactly | src/distill/context.ts:151-162 | what is taken from a tier is the admitted candidates in order |
| RecallProofs.ContextExactly | src/distill/context.ts:114-204 | the context shows tier by tier the texts taken, and one item for each with its tier, id, size and score |
| Recall.AllowancesAreKept | src/distill/context.ts:129-185 | each tier's cap is at least its own share whatever earlier tiers used, and no tier exceeds its cap |
| Recall.BudgetHoldsExactly | src/distill/context.ts:129-201 | spillover telescopes: the total is within budget if and only if the core's cap is not negative |
| Recall.BudgetAlwaysHoldsExactly | src/distill/context.ts:101-204 | for any weights: the budget holds for everything a store may hold and the searches may answer if and only if it is not negative and none of the running sums of the pinned, ranked and scene shares exceeds it (the last one only by less than the shortest scene) |
| Recall.BudgetIsKept | src/distill/context.ts:101-204 | the total never exceeds the budget for weights and budget that are not negative |
| Recall.CharsAddUp | src/distill/context.ts:197-201 | item sizes sum to the total, and so do the tiers |
| Recall.LeftOutDoesNotFit | src/distill/context.ts:158 | a ranked atom or scene left out would not fit the finished tier |
| Recall.GreedyServesRankBest | src/distill/context.ts:151-162 | of all selections within the cap the tier makes the lexicographically best by rank |
| Recall.PinnedIsLeadingRun | src/distill/context.ts:131-137 | the pinned tier admits the longest leading run that fits |
| Recall.NoPinnedAtomIsRanked | src/distill/context.ts:143-152 | no pinned atom reappears as ranked, fitted or not |
| Recall.TruncatedExactly | src/distill/context.ts:133-202 | truncated is false if and only if every candidate is present and the core is whole |
| DeltaLog.ReconstructSceneMembership | analysis/src/falda_analysis/store.py:138-214 | the replay loop computes the reconstruction |
| DeltaLog.ReplayRoundTrip | analysis/src/falda_analysis/store.py:145-214 | for rows recording the set differences of consecutive memberships from a creation on, the replay shows exactly the membership before and after the selected pass, as complete |
| DeltaLog.ReplayStartsAtCreation | analysis/src/falda_analysis/store.py:153-163 | the replay starts at the scene's creation row |
| DeltaLog.ReplayChange | src/distill/core.ts:1095-1103 | replaying one recorded difference turns any listing of the old members into one of the new and finds it consistent |
| DeltaLog.CompleteExactly | analysis/src/falda_analysis/store.py:175-202 | complete if and only if every pass since the baseline has a row agreeing with the membership replayed so far |
| DeltaLog.MissingRowIsPartial | analysis/src/falda_analysis/store.py:180-188 | a missing row up to the selected pass forces partial |
| DeltaLog.OverwrittenRowMisleads | src/distill/core.ts:657 | two passes under one id: the replay shows a wrong membership as complete |
| DeltaLog.OverwrittenExactly | src/distill/core.ts:657 | when the retained row of two steps under one id fits the replayed membership, the membership shown next is the actual one if and only if the overwritten step had changed nothing |
| Effects.PassFaithful | src/distill/core.ts:1095-1320 | a pass that reaches its gate wrote, for every scene whose membership it changed, a row with exactly that change, called a creation, an update, a retirement or no change as it was |
| Effects.LiveTopicIsNoted | src/distill/core.ts:1220-1319 | a topic that is live when a pass begins has a row in that pass |
| Growth.PassKeepsFit | src/distill/core.ts:1093-1503 | wherever a pass stops, no scene is lost, none changes kind, sessions' scenes are episodes, and a topic's member list repeats nothing or is the one it had |
| DeltaLog.StepRightExactly | analysis/src/falda_analysis/store.py:189-202 | from a right membership, a row fits and leads to the right one if and only if it states exactly what went, what came and both sizes |
| DeltaLog.RightExactly | analysis/src/falda_analysis/store.py:175-202 | all answers are complete and right if and only if each row states exactly what changed since the pass before it |
| AuditLog.AuditTables.RecordAttempt | src/store/distill-audit.ts:43-110 | the upserts of an attempt, row by row, leave the tables that the history of attempts calls for |
| AuditLog.PassesAreLatest | src/store/distill-audit.ts:48-72 | the pass table lists exactly the last attempt under each id, in the order they started |
| AuditLog.RetainedRow | src/store/distill-audit.ts:90-110 | under each id a scene has at most one row: that of the last attempt that wrote one for it |
| Histories.AnsweredExactly | analysis/src/falda_analysis/store.py:145-163 | for any ids and outcomes: there is no answer if and only if the creating attempt wrote no rows, or a later one under its id wrote some or came after the selected pass |
| Histories.AnswersRightExactly | analysis/src/falda_analysis/store.py:145-214 | for any ids and outcomes: all answers since the creation are complete and right if and only if each kept row is the scene's move between the ends of its pass and the one listed before |
| Histories.RetriesReplay | analysis/src/falda_analysis/store.py:145-214 | when attempts under one id follow each other and only one moves the scene, the answer is complete if and only if the creation row was kept and some attempt under each id since reached its gate; it is then exactly what the pass found and left |
| Histories.TopicHistoryReplays | analysis/src/falda_analysis/store.py:138-214 | both for topics, over any history of attempts that fail in L1, stop, or reach their gate, retried under any ids, from the creation through attempts that found the topic live |
| Histories.TopicHistoryExactly | analysis/src/falda_analysis/store.py:138-214 | the exact condition for right answers for topics, with no condition on the attempts |
| Histories.L1RetriesReplay | src/store/distill-audit.ts:48-55 | where only failures in L1 were retried under their id, complete and right if and only if the last attempt under each id since the creation reached its gate |
| PassIds.KeysMoveOn | src/distill/watermark.ts:58-63 | over any run without deletions and with one window size, what ids are the digest of never moves back |
| PassIds.KeyTellsWindow | src/distill/watermark.ts:58-63 | two attempts of a run have one key if and only if they start from one watermark with the same turns |
| PassIds.SharedIdMovesNoWindow | src/distill/core.ts:657 | two attempts under one id committed no window between them: the earlier failed in L1 or had no turns |
| PassIds.IdsAreConsecutive | src/distill/core.ts:657 | so attempts under one id follow each other |
| Capture.CaptureFlushQueue.RecordPart | integrations/opencode/plugin/capture-flush.ts:42-46 | overwrites the text, keeps the session of an existing entry |
| Capture.CaptureFlushQueue.HasDeliverableText | integrations/opencode/plugin/capture-flush.ts:62-66 | true if and only if a flush would send |
| Capture.CaptureFlushQueue.BeginFlush | integrations/opencode/plugin/capture-flush.ts:83-92 | takes the entry off the queue and marks it flushed, or does nothing |
| Capture.CaptureFlushQueue.FlushFailed | integrations/opencode/plugin/capture-flush.ts:95-99 | puts entry and role back |
| Capture.FlushSends | integrations/opencode/plugin/capture-flush.ts:75-92 | a flush of a waiting, unsent text that is not blank sends that text, trimmed, under the session it waits with and the role given; any other does nothing |
| Capture.FirstSessionStays | integrations/opencode/plugin/capture-flush.ts:42-99 | over every interleaving a message is sent and delivered under the session of its first part |
| Capture.FailedFlushUndone | integrations/opencode/plugin/capture-flush.ts:75-100 | a failed flush with nothing in between restores the queue exactly |
| Capture.CaptureIsSafe | integrations/opencode/plugin/capture-flush.ts:42-101 | over every interleaving sends of one id never overlap, each id is delivered at most once, and every recorded id is pending, in flight or delivered |
| Capture.NewestLostExactly | integrations/opencode/plugin/capture-flush.ts:95-98 | a step loses the newest text of an undelivered message if and only if it is its failing send overwriting a different waiting text |
| Capture.NewestSurvives | integrations/opencode/plugin/capture-flush.ts:42-101 | without such a step the newest text is held until delivery |
| Capture.NewestTextCanBeLost | integrations/opencode/plugin/capture-flush.ts:97 | a run in which it is lost |
| Capture.DeliveredNewestExactly | integrations/opencode/plugin/capture-flush.ts:83-94 | what a flush that is not undone delivers is the newest text if and only if the text that was newest when it began still is, as sent; so when no part was recorded between its halves or later |
| Capture.DeliveredStays | integrations/opencode/plugin/capture-flush.ts:83-94 | a delivered message is never sent again, whatever is recorded for it |
| Capture.LateTextIsStranded | integrations/opencode/plugin/capture-flush.ts:83-94 | a run in which a part recorded during a send that succeeds stays pending for good |

## Left out

- SQLite, the text and vector indexes of turns, the text index of scenes, the scene_atoms join table and the markdown mirror: derived copies that no modelled step reads.
- JSON text and code fences: replies are parsed values (`Decisions.Reply`); extraction replies and their validation, and the search for neighbours, are one parameter of a pass (`OnePass.Planner.extract`).
- Prompt wording: `Prompts.Wording` stands for every fixed text; of the batch prompt, its length and the candidates and neighbours it shows are used.
- Cosine similarity and float rounding: similarity is an arbitrary real function, recall weights are real numbers.
- SHA-256, random ids, clock-based titles: parameters; results that need injectivity or freshness say so.
- Timestamps, created_at and updated_at, denormalised source columns of atoms, tags and other fields no modelled step reads.
- Store.Falda.AddTurn: idempotent duplicates and conflicts by (session, turn_index) and turn_id, and turn embeddings, are not modelled, because no step of a pass reads those columns; each modelled append is a new row.
- Runs.Do: deleteStream and hardDeleteAtomsUnsafe are not steps of a run; the latter leaves the deleted id in scenes.
- Runs.Do: L2 and L3 of a pass are one step; a lifecycle call that lands between their awaits, whose dirty mark the final clear erases, is not modelled.
- Store.Falda.ReembedAll: the rebuild of turn vectors is not modelled.
- OnePass.DistillOnce: requests that land between planning and the transaction are not steps of this method; `PlanningProofs.PlanCommitsExactly` holds for whatever tables the transaction opens on.
- Audit rows other than scene effects, counters and log lines: best effort, outside the transaction's meaning.
- DeltaLog.ReplayRoundTrip: needs a row of its own for each pass; what holds when attempts share an id is `Histories.TopicHistoryReplays` and `Histories.TopicHistoryExactly`.
- Histories.History: attempts start at distinct times and no scene is written between them; within one, effect rows are all written or none.
- Effects.PassRows: the unchanged row that narration adds for a scene no phase noted is not modelled, nor are the regeneration flags of a row.
- The sweep that enqueues stores, pruning, metrics and the shutdown grace period of the worker: only stop, wake, ticks, job ends and restarts matter to the lane.
- Hybrid search ranking, budget resolvers, recall usage reports, pool registry, HTTP and MCP servers, command line and terminal interface: library behaviour or small pure lookups that would only add easy members.
- Atom ids that are the empty string, which the clustering loop treats as absent.
