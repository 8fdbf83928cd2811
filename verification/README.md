# Verified model of the material knowledge pipeline

The repository moves retrieved evidence into a reviewed knowledge graph. These Dafny files model
the algorithms and protocols on that path and prove what each of them keeps, for every input and
over every run.

| file | what it models |
|---|---|
| `Common.dfy` | options, results, and facts about sequences and finite sets |
| `LayoutIndex.dfy`, `Neighborhood.dfy` | the counting-sort incident-edge index and the capped breadth-first search over it |
| `DisjointSet.dfy`, `GraphAudit.dfy`, `AuditRows.dfy` | union-find with path halving, the degree and component audit built on it, and what the report says about rows and names |
| `FactGraph.dfy`, `FactReading.dfy`, `GraphWriter.dfy`, `AgeWriter.dfy` | fact batches, their projection and what it says, the in-memory graph writer, and the PostgreSQL writer with its Apache AGE mirror |
| `JobQueue.dfy`, `PostgresJobs.dfy`, `ReviewProtocol.dfy` | the leased job queue in both repositories with its audit rows, and human review, transactional outbox and graph write as one protocol with crashes |
| `Catalog.dfy`, `Records.dfy` | source records, canonical pointers and version relations: full recomputation against incremental repair, and what the rules mean field by field |
| `Framing.dfy`, `Repetition.dfy`, `Manifest.dfy`, `ManifestRows.dfy` | line framing, CSV record assembly, runs with repeated steps, resumable manifest ingestion with a durable cursor, and which rows a manifest yields |
| `SharedLimiter.dfy`, `AdaptivePool.dfy` | the two concurrency limiters over all interleavings |
| `Extraction.dfy`, `Processing.dfy`, `Retention.dfy`, `Ingestion.dfy` | checkpointed extraction, evidence selection with stable identifiers, and ingestion, over arbitrary deaths, lost writes and restarts |
| `Chunking.dfy`, `Selection.dfy`, `SelectionReading.dfy` | bounded textbook chunking, budgeted source selection, and what decides eligibility and order |

`dafny verify dfyconfig.toml` checks everything.

How the model is cut:

- SHA-256 and uuid5 values are free datatype constructors over what they hash, or the hashed value
  itself: equal identifiers mean equal content.
- Objects that the program updates in place are classes, and loops are methods; each is proved
  against functions on values, and the results over whole runs are lemmas about those functions.
- Functions that methods are proved against are tied to the stored fields, the input rows or the
  commands of a run by lemmas that do not mention them (`Records`, `FactReading`, `AuditRows`,
  `ManifestRows`, `SelectionReading`, and the lemmas named `...OnFields` and `...Means`).
- A SQL transaction is one step. Between steps a process may die, lose its lease or be overtaken.
  Clock readings are parameters; nothing in the queue needs them to be monotone.
- Crash points are budgets: a run dies after as many durable writes or external calls as its budget
  allows, so a property for every budget is a property for every crash point. In ingestion a
  checkpoint write may also be reported lost, before or after it took effect.
- Text-level helpers (tokenising, regular expressions, Unicode normalisation), rankers, parsers and
  providers are parameters with arbitrary answers.

Where the program does less than its neighbours promise, the model keeps the program:

- Version relations repaired per DOI agree with the full recomputation only while no pair of sources
  is related by two DOIs (`Catalog.RelationsAgreeIffOneDoiPerPair`, with a catalog four upserts away
  in `Catalog.CrossedDisagrees`): the table has one row per pair, the recomputation lists both DOIs.
- A manifest row that is upserted again after a crash keeps records and pointers, but may store a
  pair of sources under another DOI (`Manifest.CrashMovesRelation`, on a catalog reached in
  `Catalog.ReplayMayMoveRelation`). A row is harmless when its repetition moves nothing, which
  `Manifest.ReplayHarmlessIff` decides from the clean run alone. The restarted run equals the clean
  one if every row is harmless (`Manifest.MetadataManifestIngestor.IngestUntilDone`), a row that is
  not has a crash point that shows (`Manifest.MetadataManifestIngestor.DieAfterUpsert`,
  `Manifest.HarmlessIff`), and a run that never relates a pair by two DOIs is harmless
  (`Manifest.TidyIsHarmless`).
- An extraction checkpoint waiting for a retry, resumed under a lower attempt limit, makes the
  exhaustion write conflict (`Extraction.LowerPolicyConflicts`, `Extraction.LoweredLimitConflicts`).
- A source still at SELECT that is resumed under another decision is refused as retryable every time
  (`Ingestion.KnowledgeIngestionPipeline.IngestUnderOtherDecision`).
- The failure of a run is recorded from the checkpoint the process holds, and the progress rule does
  not look at the index boundary: a boundary whose write was reported lost after it took effect is
  taken back by that record, and the fragments may be inserted again (`Ingestion.BoundaryTakenBackIff`).
- Rows of an attempt that died between persisting and its checkpoint stay. If the source then parses
  differently, resuming after RETAIN is refused for good exactly when an earlier attempt kept a
  fragment that the last did not (`Ingestion.ReparsedCountIff`, `Ingestion.ReparsedDiffers`).
- Sources are screened after one record per identifier was kept, so a digest can be selected although
  a record that gave way had been processed (`Selection.EligibleProcessedIff`,
  `Selection.ProcessedNamesakeIsSelected`).
- Enqueueing a queued payload again under an invalid limit is refused by PostgreSQL and answered by
  the in-memory repository (`PostgresJobs.EnqueueAgrees`, `PostgresJobs.EnqueueDiffers`).
- A failed job replayed on PostgreSQL is answered only if the stored verdict is the one the caller's
  flags would choose now; the in-memory repository answers either (`JobQueue.PostgresFailAgrees`,
  `PostgresJobs.FailDiffers`).

## Model

| member | source | states |
|---|---|---|
| LayoutIndex.Handshake | src/material_graph/knowledge/material_graph_layout_index.py:444-460 | Degrees over all nodes sum to twice the number of edges, so the offsets end at `2E` |
| LayoutIndex.OffsetsMonotone | src/material_graph/knowledge/material_graph_layout_index.py:453-458 | Offsets of an exact index never decrease |
| LayoutIndex.IncidencesCount | src/material_graph/knowledge/material_graph_layout_index.py:462-476 | A node's incidence list holds an edge exactly as many times as the node is an endpoint of it, a self-loop twice |
| LayoutIndex.IncidencesMember | src/material_graph/knowledge/material_graph_layout_index.py:462-476 | An edge is in a node's list if and only if the node is one of its endpoints |
| LayoutIndex.IncidencesSorted | src/material_graph/knowledge/material_graph_layout_index.py:462-476 | A node's list is in edge order |
| LayoutIndex.SlotOwner | src/material_graph/knowledge/material_graph_layout_index.py:462-476 | Every slot of the incident array belongs to exactly one node's slice |
| LayoutIndex.CountDegrees | src/material_graph/knowledge/material_graph_layout_index.py:444-451 | The degree loop succeeds if and only if every endpoint is in range, and then counts each node's endpoint occurrences |
| LayoutIndex.PrefixSums | src/material_graph/knowledge/material_graph_layout_index.py:453-458 | The prefix-sum loop yields the number of slots of all smaller nodes |
| LayoutIndex.FillIncidentEdges | src/material_graph/knowledge/material_graph_layout_index.py:462-476 | The cursor loop writes every slot so that each node's slice is its incidence list |
| LayoutIndex.BuildEdgeIndex | src/material_graph/knowledge/material_graph_layout_index.py:413-482 | Which inputs are refused with which error, and for all others an exact index: offsets from 0 to `2E`, each slice the incidence list of its node |
| Neighborhood.BallIsWalks | src/material_graph/knowledge/material_graph_layout_index.py:538-566 | The recursive distance ball is the set of nodes reached by walks of at most that many edges |
| Neighborhood.ScanNode | src/material_graph/knowledge/material_graph_layout_index.py:545-559 | Scanning one frontier node keeps the order duplicate-free and by distance, explores all neighbours, or stops full with a nearer node missing |
| Neighborhood.ExpandLevel | src/material_graph/knowledge/material_graph_layout_index.py:542-566 | One level of the search turns a complete level into the next complete one, or reports truncation with a witness |
| Neighborhood.CollectNodes | src/material_graph/knowledge/material_graph_layout_index.py:538-566 | Selected nodes are duplicate-free, bounded, in order of distance with nearer levels complete, all in the ball; truncated if and only if a ball node is missing, and then exactly at the cap |
| Neighborhood.ScanEdges | src/material_graph/knowledge/material_graph_layout_index.py:568-585 | One node's pass adds the induced edges with that smaller endpoint, in order, or stops at the cap with an induced edge missing |
| Neighborhood.CollectEdges | src/material_graph/knowledge/material_graph_layout_index.py:568-588 | Returned edges are induced edges, each once in scan order; truncated if and only if an induced edge is missing, and then exactly at the cap |
| Neighborhood.CollectBoundedNeighborhood | src/material_graph/knowledge/material_graph_layout_index.py:530-588 | Nodes and edges of the bounded neighbourhood together, with both truncation flags exact in both directions |
| DisjointSets.Root | scripts/audit_material_graph.py:38-42 | Following parents always ends, at a node that is its own parent |
| DisjointSets.SizesDouble | scripts/audit_material_graph.py:44-52 | A root's recorded size is at least two to the depth times any member's recorded size |
| DisjointSets.DepthIsLogarithmic | scripts/audit_material_graph.py:38-52 | No node is deeper than the binary logarithm of the number of nodes |
| DisjointSets.HalvingKeepsRoot | scripts/audit_material_graph.py:38-42 | Pointing a node at its grandparent changes no node's root |
| DisjointSets.LinkRoots | scripts/audit_material_graph.py:44-52 | Linking one root under another moves exactly the second root's class |
| DisjointSets.LinkKeepsCounts | scripts/audit_material_graph.py:44-52 | After a link the recorded size of every root is the cardinality of its class |
| DisjointSets.DisjointSet.constructor | scripts/audit_material_graph.py:34-36 | Initially every node is alone in its class |
| DisjointSets.DisjointSet.Find | scripts/audit_material_graph.py:38-42 | Returns the root of the item's class and, although it compresses the path, leaves every class as it was |
| DisjointSets.DisjointSet.Union | scripts/audit_material_graph.py:44-52 | Merges exactly the two classes under one of their roots and keeps the size and doubling invariants |
| GraphAudit.MergeLabels | scripts/audit_material_graph.py:171-176 | Labels that name components still do after one more edge, if the two classes of its endpoints are merged |
| GraphAudit.TallyIsComponent | scripts/audit_material_graph.py:178-183 | The tally of roots records at each label the cardinality of the connected component |
| GraphAudit.TallySize | scripts/audit_material_graph.py:178-182 | The tally has one entry per connected component |
| GraphAudit.IndexEntities | scripts/audit_material_graph.py:117-134 | Fails exactly on an empty identifier; otherwise indexes the distinct identifiers in first-seen order and counts the duplicates |
| GraphAudit.AddRow | scripts/audit_material_graph.py:171-176 | One valid row's union makes the classes the components of the rows so far |
| GraphAudit.CountRows | scripts/audit_material_graph.py:136-176 | All row counters, the degrees and the classes after the last row, against their plain definitions over the valid rows |
| GraphAudit.ComponentSizes | scripts/audit_material_graph.py:178-178 | Counts every node under its root without changing any class |
| GraphAudit.LargestValue | scripts/audit_material_graph.py:183-183 | The largest component size, or zero when there are no nodes |
| GraphAudit.AuditGraph | scripts/audit_material_graph.py:101-183 | For every input, the reported components and largest component are those of the undirected graph of valid rows, and degrees and row counts are exact |
| GraphAudit.TotalDegree | scripts/audit_material_graph.py:171-184 | Total degree is twice the number of valid rows |
| AuditRows.EdgesAreRows | scripts/audit_material_graph.py:156-176 | Two entities are joined by an edge exactly if a row names the one as its source and the other as its target |
| AuditRows.ConnectedIff | scripts/audit_material_graph.py:171-178 | Two entities are connected exactly if a chain of rows links their names |
| AuditRows.ReportMeans | scripts/audit_material_graph.py:101-183 | By names and rows: every degree is the number of times the entity is an endpoint, and components and the largest one are those of the entities linked by rows |
| FactGraph.NodeIdDetermines | src/material_graph/knowledge/facts.py:735-743 | In a valid batch two nodes with the same identifier are the same node, so the projection's conflict cannot arise |
| FactGraph.EdgeEndpoints | src/material_graph/knowledge/facts.py:678-702 | Both endpoints of every edge of a valid batch are nodes of that batch |
| FactGraph.AddNodes | src/material_graph/knowledge/facts.py:735-743 | Storing nodes of a valid batch never conflicts and yields the dictionary of all of them |
| FactGraph.AddEdges | src/material_graph/knowledge/facts.py:745-752 | Storing edges keyed by their content never conflicts |
| FactGraph.AddFact | src/material_graph/knowledge/facts.py:771-853 | One relation or observation adds its node, its evidence nodes and their edges, and nothing else |
| FactGraph.ProjectFactBatch | src/material_graph/knowledge/facts.py:755-861 | Succeeds with the projection if and only if the batch is valid; no valid batch raises a graph conflict |
| FactGraph.ProjectionExact | src/material_graph/knowledge/facts.py:755-861 | The projection holds exactly the nodes and edges of the batch, each under its own identifier |
| FactGraph.ProjectionClosed | src/material_graph/knowledge/facts.py:646-657 | Every edge of a projection joins two of its nodes |
| FactReading.ProjectedEdges | src/material_graph/knowledge/facts.py:771-853 | The edges of a projection are exactly: the subject of each relation to its assertion, the assertion to its object, each observation to its subject, and each fact to its evidence in its role |
| FactReading.FactReadBack | src/material_graph/knowledge/facts.py:771-853 | Around the node of a fact there are the edges of that fact and no others, so subject, object and evidence are read back as stated |
| FactReading.FactIdSays | src/material_graph/knowledge/facts.py:371-400 | The identifier of a fact determines who, what, about whom, under which claim and on which evidence |
| FactReading.ProjectedNodes | src/material_graph/knowledge/facts.py:703-861 | Every entity, fact and piece of evidence of the batch is stored with its own properties and labels |
| FactReading.AcceptedMeans | src/material_graph/knowledge/facts.py:554-576 | A batch is projected exactly if it has entities and facts under distinct identifiers and every fact was extracted with the batch, is supported by distinct evidence some of which is the batch's fragment, is about declared entities, and observes a subject in its role |
| FactReading.LabelsMean | src/material_graph/knowledge/facts.py:722-732 | Which labels an entity of each type has |
| FactReading.OtherLabels | src/material_graph/knowledge/facts.py:771-853 | Facts are labelled as relations or observations, evidence as fragments |
| GraphWriter.CompatibleMeansSameSkeleton | src/material_graph/knowledge/facts.py:888-908 | Two nodes merge if and only if they agree in everything but aliases, and the merge unites the aliases |
| GraphWriter.NodeUpdates | src/material_graph/knowledge/facts.py:950-960 | The update loop fails exactly on an incompatible node and otherwise lists the changed nodes only |
| GraphWriter.InMemoryGlobalKnowledgeGraphWriter.Store | src/material_graph/knowledge/facts.py:936-974 | The section under the lock commits one projection or changes nothing |
| GraphWriter.InMemoryGlobalKnowledgeGraphWriter.WriteBatch | src/material_graph/knowledge/facts.py:929-980 | New contents and result of a write, as one function of the old contents and the batch |
| GraphWriter.WriteKeepsClosed | src/material_graph/knowledge/facts.py:929-980 | After every write identifiers are right and every edge has both endpoints; a failed or repeated write changes nothing |
| GraphWriter.WriteReports | src/material_graph/knowledge/facts.py:929-980 | An accepted write reports its batch, the sizes of its projection and whether the key was there before, and leaves the key with exactly this projection |
| GraphWriter.ConflictsAreNodes | src/material_graph/knowledge/facts.py:950-966 | With content-addressed edges only nodes can conflict |
| GraphWriter.CommitsIffAgree | src/material_graph/knowledge/facts.py:929-980 | A sequence of projections commits if and only if they agree pairwise, and the result is exactly what they describe together |
| GraphWriter.DescribedOnce | src/material_graph/knowledge/facts.py:929-980 | What a list of projections describes is one graph |
| GraphWriter.ItemsConfluent | src/material_graph/knowledge/facts.py:929-980 | Projections that commit in one order commit in every order, repeats included, with the same graph |
| GraphWriter.WritesAreConfluent | src/material_graph/knowledge/facts.py:929-980 | The same for runs of the writer on batches |
| GraphWriter.RunsCommitIffAgree | src/material_graph/knowledge/facts.py:929-980 | A run of writes succeeds if and only if all batches are valid and agree pairwise |
| AgeWriter.AgreesWithInMemory | src/material_graph/knowledge/age_writer.py:566-680 | A PostgreSQL write goes through if and only if the in-memory one does, the size limits hold and an unexpired matching approval is found; then both results are equal, otherwise nothing changes |
| AgeWriter.RefusalMeans | src/material_graph/knowledge/age_writer.py:533-606 | Why a write is refused: the batch, its size, or which defect of the approval |
| AgeWriter.MirrorMeans | src/material_graph/knowledge/age_writer.py:498-511 | The mirror joins the endpoints of every relational edge in their direction, and nothing else |
| AgeWriter.NothingSkipped | src/material_graph/knowledge/age_writer.py:267-282 | With all endpoints present the matching edge statement skips no edge |
| AgeWriter.MirrorOfUnion | src/material_graph/knowledge/age_writer.py:253-282 | Mirroring commutes with adding edges that agree on shared identifiers |
| AgeWriter.AllNodeUpdates | src/material_graph/knowledge/age_writer.py:614-629 | Fails exactly on an incompatible node and otherwise rewrites every projected node, merged where stored |
| AgeWriter.PostgresAGEGlobalKnowledgeGraphWriter.Prepare | src/material_graph/knowledge/age_writer.py:608-640 | Finds the rows to write, or a conflict, without writing |
| AgeWriter.PostgresAGEGlobalKnowledgeGraphWriter.Transact | src/material_graph/knowledge/age_writer.py:590-668 | The transaction commits as the relational graph allows, stores the approval with the batch, and leaves the AGE mirror equal to the tables |
| AgeWriter.PostgresAGEGlobalKnowledgeGraphWriter.WriteBatch | src/material_graph/knowledge/age_writer.py:566-680 | Full result and new tables of one call; existing batch rows never change, and a new one holds the projection and the approval looked up |
| JobQueue.InMemoryKnowledgeJobRepository.Enqueue | src/material_graph/knowledge/jobs.py:313-335 | New contents and result of enqueueing, including the refusal of graph writes and the reuse of an existing key |
| JobQueue.InMemoryKnowledgeJobRepository.Claim | src/material_graph/knowledge/jobs.py:341-388 | Claims the first claimable job in identifier order and gives up on exactly the exhausted ones before it; in terms of the stored fields, only a waiting and due job or one whose lease has ended is taken, no live lease and no job that is not due is touched, and nothing that could be taken is passed over |
| JobQueue.InMemoryKnowledgeJobRepository.Renew | src/material_graph/knowledge/jobs.py:403-416 | New contents and result of a renewal |
| JobQueue.InMemoryKnowledgeJobRepository.Complete | src/material_graph/knowledge/jobs.py:418-438 | New contents and result of a completion, replays included |
| JobQueue.InMemoryKnowledgeJobRepository.Fail | src/material_graph/knowledge/jobs.py:440-478 | New contents and result of a failure, replays and the retry decision included |
| JobQueue.ClaimTakes | src/material_graph/knowledge/postgres_jobs.py:76-116 | Any claim of a claimable job, by the stored fields: what is taken, what is given up, and that all else stays |
| JobQueue.EnqueueOnFields | src/material_graph/knowledge/jobs.py:313-335 | A payload is queued once, as a job that is due at once with no attempt used, and is answered with that job ever after |
| JobQueue.RenewOnFields | src/material_graph/knowledge/jobs.py:403-416 | A lease is renewed exactly while it is held and has not ended, and then lasts the given time |
| JobQueue.CompleteOnFields | src/material_graph/knowledge/jobs.py:418-438 | A job succeeds exactly by the completion of the holder of its unexpired lease, with the result given; a finished one answers exactly its last holder with that result |
| JobQueue.FailOnFields | src/material_graph/knowledge/jobs.py:440-478 | A failure of the holder waits for the delay exactly if it may be retried and attempts are left, and is final otherwise |
| JobQueue.FailNeedsHolder | src/material_graph/knowledge/jobs.py:440-478 | Whoever does not hold the job changes nothing by failing it, and is answered exactly for the failure that is stored |
| JobQueue.EveryRunSound | src/material_graph/knowledge/jobs.py:201-230 | Every record reachable by any interleaving passes the validator that updates skip, its lease token is its attempt, and there is one job per payload |
| JobQueue.StepMoves | src/material_graph/knowledge/jobs.py:341-478 | What one step of either repository may do to one job |
| JobQueue.TerminalForever | src/material_graph/knowledge/jobs.py:341-478 | Succeeded and permanently failed jobs never change again |
| JobQueue.SupersededIsPowerless | src/material_graph/knowledge/jobs.py:390-478 | No call with a superseded lease changes anything, in either repository |
| JobQueue.ClaimSupersedes | src/material_graph/knowledge/jobs.py:341-388 | A claim supersedes every lease granted on the job before it |
| JobQueue.FencedForever | src/material_graph/knowledge/jobs.py:390-478 | A superseded lease stays superseded and powerless after any further events |
| JobQueue.OneLiveLease | src/material_graph/knowledge/jobs.py:390-401 | Two leases on one job that pass the fence belong to one grant |
| JobQueue.LiveLeaseStands | src/material_graph/knowledge/jobs.py:341-478 | Over any run, until its lease ends nobody else can take, finish or fail a running job, whatever happens in between |
| JobQueue.CompleteReplays | src/material_graph/knowledge/jobs.py:418-438 | An accepted completion is answered identically ever after and changes nothing |
| JobQueue.FailReplays | src/material_graph/knowledge/jobs.py:440-478 | An accepted failure replays without effect, and is refused exactly once the job was claimed again |
| JobQueue.AttemptsAreClaims | src/material_graph/knowledge/jobs.py:341-388 | A job's attempt is the number of times it was claimed, so it is claimed at most `max_attempts` times |
| JobQueue.StepDecreases | src/material_graph/knowledge/jobs.py:341-478 | Every change of a job except a renewal uses up a measure |
| JobQueue.WorkIsBounded | src/material_graph/knowledge/jobs.py:341-478 | In any run a job changes at most twice per attempt, renewals aside |
| JobQueue.PostgresFailAgrees | src/material_graph/knowledge/postgres_jobs.py:444-502 | The retry decision from the caller's snapshot equals the one from the stored row whenever the fence passes; the calls differ exactly when a stored failure had the other verdict |
| JobQueue.ClaimMoves | src/material_graph/knowledge/postgres_jobs.py:76-116 | Whatever claimable job is picked and whichever exhausted jobs are swept, every job moves as the protocol allows |
| PostgresJobs.NoOvertaking | src/material_graph/knowledge/postgres_jobs.py:76-116 | With no row locked, nothing claimable is passed over for a job that has been due for less |
| PostgresJobs.LongestWaiting | src/material_graph/knowledge/postgres_jobs.py:88-100 | By the fields: the job claimed has waited longest of those that could be claimed, of these it was created first, and of these it has the smallest identifier |
| PostgresJobs.EnqueueAgrees | src/material_graph/knowledge/postgres_jobs.py:286-316 | Both repositories enqueue alike except exactly for an invalid limit on a payload that is queued already |
| PostgresJobs.ClaimAgrees | src/material_graph/knowledge/postgres_jobs.py:76-116 | On sound queues the claim statement is the queue's claim with every exhausted job swept; the columns it clears are empty |
| PostgresJobs.CompleteAgrees | src/material_graph/knowledge/postgres_jobs.py:392-442 | Trying the fence before looking for a replay answers and changes exactly what the in-memory repository does |
| PostgresJobs.AnswersAreReviewed | src/material_graph/knowledge/postgres_jobs.py:238-277 | While every graph job has its approved review, no completion or failure is rolled back for want of an audit row |
| PostgresJobs.ReplaysShareTheirRow | src/material_graph/knowledge/postgres_jobs.py:238-277 | A completion and any later replay of it are audited under one key, so a replay adds no audit row |
| PostgresJobs.FailureReplaysShareTheirRow | src/material_graph/knowledge/postgres_jobs.py:444-502 | A replayed failure is answered until the job is claimed again, and is audited under the key of the first call, event and code included |
| PostgresJobs.EnqueueDiffers | src/material_graph/knowledge/postgres_jobs.py:286-316 | A concrete run: a payload queued once and enqueued again with limit nine is refused here and answered in memory |
| PostgresJobs.FailDiffers | src/material_graph/knowledge/postgres_jobs.py:444-502 | A concrete run: a job failed for a retry and failed again as permanent is refused here and answered in memory |
| PostgresJobs.PostgresKnowledgeJobRepository.Audit | src/material_graph/knowledge/postgres_jobs.py:238-277 | An audit row is stored if and only if the review is approved for this job or the row exists already |
| PostgresJobs.PostgresKnowledgeJobRepository.Enqueue | src/material_graph/knowledge/postgres_jobs.py:286-316 | New rows and result of enqueueing |
| PostgresJobs.PostgresKnowledgeJobRepository.NextCandidate | src/material_graph/knowledge/postgres_jobs.py:88-100 | Of the claimable unlocked rows the one due longest, then oldest, then smallest |
| PostgresJobs.PostgresKnowledgeJobRepository.Claim | src/material_graph/knowledge/postgres_jobs.py:331-356 | Claims exactly that row, fails every exhausted one, and adds one audit row; otherwise refuses or rolls back and changes nothing; in terms of the stored fields no live lease and no row that is not due is touched, and none that could be taken is left when nothing is claimed |
| PostgresJobs.PostgresKnowledgeJobRepository.Renew | src/material_graph/knowledge/postgres_jobs.py:358-390 | New rows and result of a renewal behind its fence |
| PostgresJobs.PostgresKnowledgeJobRepository.Complete | src/material_graph/knowledge/postgres_jobs.py:392-442 | New rows, audit and result of a completion, replays and rollback included |
| PostgresJobs.PostgresKnowledgeJobRepository.Fail | src/material_graph/knowledge/postgres_jobs.py:444-502 | New rows, audit and result of a failure, replays and rollback included |
| ReviewProtocol.RunsKeepInv | src/material_graph/knowledge/reviewed_graph.py:350-566 | Every step of the protocol, under any interleaving and crash, keeps the invariant that ties drafts, reviews, jobs, tables and workers together |
| ReviewProtocol.OnlyApprovedIsWritten | src/material_graph/knowledge/reviewed_graph.py:350-442 | A batch is in the graph only if its review approved exactly that projection |
| ReviewProtocol.RejectedLeavesNothing | src/material_graph/knowledge/reviewed_graph.py:350-442 | A rejected batch has no job and no graph content |
| ReviewProtocol.ApprovedHasOneJob | src/material_graph/knowledge/reviewed_graph.py:544-566 | An approved review has exactly one job, which carries its approval |
| ReviewProtocol.SucceededIsWritten | src/material_graph/knowledge/jobs.py:593-642 | A succeeded graph job has its batch in the graph as approved |
| ReviewProtocol.GraphIsItsLog | src/material_graph/knowledge/age_writer.py:590-668 | The graph is closed and is exactly what the committed batches describe, each committed once |
| ReviewProtocol.OnlyFirstWritesChange | src/material_graph/knowledge/age_writer.py:590-668 | Only a first write of a batch changes the graph |
| ReviewProtocol.RewriteIsHarmless | src/material_graph/knowledge/age_writer.py:594-606 | Executing a written batch again reports it present and changes no table |
| ReviewProtocol.ExactlyOnce | src/material_graph/knowledge/jobs.py:593-642 | Over any run the writes of a batch that change the graph are exactly one if it is in the graph, and none otherwise |
| ReviewProtocol.EffectIsAppearance | src/material_graph/knowledge/age_writer.py:590-668 | A write of a batch changes the graph at the step at which its key appears and at no other, and keys never leave |
| ReviewProtocol.VerdictsNeverFlip | src/material_graph/knowledge/reviewed_graph.py:366-375 | A decided review is never changed by any later step |
| ReviewProtocol.FirstVerdict | src/material_graph/knowledge/reviewed_graph.py:350-442 | The first verdict on a batch is stored as commanded, with its reviewer, its audit and its expiry, and queues one job exactly if it approves; a missing or too large batch changes nothing |
| ReviewProtocol.RepeatedVerdict | src/material_graph/knowledge/reviewed_graph.py:366-375 | The same verdict again is answered with the stored review, the opposite one with a conflict, and neither changes anything |
| ReviewProtocol.VerdictsAreCommanded | src/material_graph/knowledge/reviewed_graph.py:376-387 | Over any run, every review goes back to the one command that first decided its batch, and says what that command said |
| ReviewProtocol.JobsAreCommanded | src/material_graph/knowledge/reviewed_graph.py:388-396 | Over any run, there is a graph job only for a decided batch, and exactly if the command that decided it approved |
| ReviewProtocol.WrittenWasCommanded | src/material_graph/knowledge/reviewed_graph.py:350-442 | Over any run, whatever batch is in the graph was decided by a command to approve it |
| ReviewProtocol.FirstVerdictStands | src/material_graph/knowledge/reviewed_graph.py:366-375 | However a run goes on, every later command on a decided batch is answered by the first: with its review or with a conflict |
| ReviewProtocol.UndisturbedJobSucceeds | src/material_graph/knowledge/jobs.py:593-642 | From any reachable state, a worker that is not disturbed, while its lease holds and its approval has not expired, puts its batch into the graph and finishes its job, if the batch agrees with those written before |
| ReviewProtocol.GrantedLeasesLoad | src/material_graph/knowledge/reviewed_graph.py:480-542 | In every reachable state, for every granted lease on a graph job, the approved batch loads: none of the loader's refusals can occur |
| ReviewProtocol.LoadedIsClearedUntilExpiry | src/material_graph/knowledge/age_writer.py:533-564 | In every reachable state a loaded batch is cleared for writing if and only if its approval has not expired |
| ReviewProtocol.PostgresFactReviewRepository.InsertOutbox | src/material_graph/knowledge/reviewed_graph.py:544-566 | Inserts the job of an approval or finds the one stored under its key; the stored payload never differs |
| ReviewProtocol.PostgresFactReviewRepository.Decide | src/material_graph/knowledge/reviewed_graph.py:350-442 | The transaction is the protocol's deciding step on the tables, and a new verdict leaves exactly its audit row |
| ReviewProtocol.TransitionsAreAuditable | src/material_graph/knowledge/postgres_jobs.py:238-277 | In every reachable state each graph job has its approved review, so no transition of the queue is rolled back for want of an audit row |
| ReviewProtocol.ResultsMatch | src/material_graph/knowledge/jobs.py:626-633 | What a worker wrote is the batch of its order, so the executor's last check cannot fail |
| ReviewProtocol.OutboxInserts | src/material_graph/knowledge/reviewed_graph.py:544-566 | A newly approved review finds no job under its key, so it inserts one |
| Catalog.MergeIdempotent | src/material_graph/knowledge/catalog.py:191-239 | Merging the same update again changes nothing |
| Catalog.MergeAssociative | src/material_graph/knowledge/catalog.py:191-239 | Merging is associative, so whole tails of updates can be replayed |
| Catalog.PutIdempotent | src/material_graph/knowledge/catalog.py:251-276 | Upserting the same record again changes no record |
| Catalog.ChooseCanonicalSource | src/material_graph/knowledge/catalog.py:169-182 | Returns the unique best candidate: richest, then primary corpus, then smallest identifier |
| Catalog.PointersNeverChain | src/material_graph/knowledge/catalog.py:384-388 | A canonical pointer leads at once to a record of the same digest without a pointer |
| Catalog.OneRootPerDigest | src/material_graph/knowledge/catalog.py:313-333 | Each digest group has exactly one record without a pointer, and the others point to it |
| Records.CompletenessCounts | src/material_graph/knowledge/catalog.py:147-167 | The score of a record is the number of its filled fields and metadata keys |
| Records.PoorerIsNotChosen | src/material_graph/knowledge/catalog.py:169-182 | A copy that fills less than another, or no more and loses by corpus or identifier, is never the canonical one |
| Records.PointersLeadToTheBest | src/material_graph/knowledge/catalog.py:313-333 | Every record with a digest points to the copy that outranks all others of that digest, or is it |
| Records.LastWordStands | src/material_graph/knowledge/catalog.py:191-239 | After any number of updates each field of a record is what the last update that says anything about it said |
| Records.RecordsTellHistory | src/material_graph/knowledge/postgres.py:470-523 | In every state of every run there is one record per path, and it is the merge of what was upserted under that path, whatever came in between |
| Records.FieldsAreLastSaid | src/material_graph/knowledge/postgres.py:470-523 | So every stored field is the last thing the run said about it |
| Records.RelatedMeans | src/material_graph/knowledge/catalog.py:334-362 | Two sources are related by a DOI exactly if both are the best copies of records with that DOI and the target outranks all of these |
| Catalog.InMemorySourceCatalog.ReconcilePointers | src/material_graph/knowledge/catalog.py:313-333 | The full recomputation of canonical pointers |
| Catalog.InMemorySourceCatalog.ReconcileRelations | src/material_graph/knowledge/catalog.py:334-362 | The full recomputation of version relations |
| Catalog.InMemorySourceCatalog.Upsert | src/material_graph/knowledge/catalog.py:251-276 | New records and path index after an upsert, with pointers and relations recomputed from them |
| Catalog.RepairedPointers | src/material_graph/knowledge/postgres.py:525-547 | Repairing the old and the new digest group gives all recomputed pointers |
| Catalog.RepairedRelationsAgree | src/material_graph/knowledge/postgres.py:549-594 | Repairing the affected DOIs, in any order, gives the recomputed relations, if no pair is related by two DOIs |
| Catalog.PostgresSourceCatalogRepository.Upsert | src/material_graph/knowledge/postgres.py:470-523 | The table after an upsert, with the collected DOIs repaired in ascending order; a new path under a taken identifier is refused |
| Catalog.PostgresSourceCatalogRepository.ReconcileSha | src/material_graph/knowledge/postgres.py:525-547 | Repairs the canonical pointers of one digest and reports its DOIs |
| Catalog.PostgresSourceCatalogRepository.ReconcileDoi | src/material_graph/knowledge/postgres.py:549-594 | Deletes and reinserts the relations of one DOI over whatever is stored |
| Catalog.IncrementalEqualsFull | src/material_graph/knowledge/postgres.py:470-547 | In every state of every run of upserts the repaired pointers equal the recomputed ones |
| Catalog.CatalogsAgree | src/material_graph/knowledge/catalog.py:251-276 | The same upserts give the in-memory and the PostgreSQL catalog the same records and the same canonical pointers |
| Catalog.RepairedRows | src/material_graph/knowledge/postgres.py:549-594 | What repairing a list of DOIs leaves at a pair: the last one that relates it, or what was stored under no repaired DOI |
| Catalog.UpsertKeepsAgreement | src/material_graph/knowledge/postgres.py:470-594 | An upsert into agreeing relations leaves agreeing relations while no pair is related by two DOIs |
| Catalog.ReplayedStep | src/material_graph/knowledge/postgres.py:470-547 | A repeated upsert keeps records and pointers, and repairs no DOI the first did not repair |
| Catalog.ReplayKeepsRelationsIff | src/material_graph/knowledge/postgres.py:549-594 | A repeated upsert keeps the relations if and only if each pair related by a DOI it repairs is stored under the last such DOI |
| Catalog.ReplayMovesRelation | src/material_graph/knowledge/postgres.py:549-594 | A concrete catalog in which a correction stores a pair under one DOI and its repetition stores it under another |
| Catalog.ReplayMayMoveRelation | src/material_graph/knowledge/postgres.py:470-594 | Six upserts into the empty catalog lead there |
| Catalog.RelationsAgreeIffOneDoiPerPair | src/material_graph/knowledge/postgres.py:549-594 | Stored relations agree with the recomputed ones in all states of a run if and only if no state relates one pair by two DOIs |
| Catalog.CrossedDisagrees | src/material_graph/knowledge/postgres.py:549-594 | A catalog, reached by four upserts, with two DOIs on one pair, for which no table of relations agrees |
| Framing.FramingLossless | src/material_graph/knowledge/remote_reader.py:325-372 | Lines concatenate back to the stream, or to what precedes the first overlong line |
| Framing.FramingLines | src/material_graph/knowledge/remote_reader.py:325-372 | Each line is one line within the limit, and only the last may lack its line feed |
| Framing.SplitChunk | src/material_graph/knowledge/remote_reader.py:351-371 | One chunk completes lines and leaves a pending tail exactly as framing the concatenation would |
| Framing.IterLines | src/material_graph/knowledge/remote_reader.py:325-372 | Lines and the point of the too-long error depend only on the concatenated bytes |
| Framing.CsvQuoteState | src/material_graph/knowledge/manifest.py:620-641 | The index-driven loop computes the quote automaton |
| Framing.ScanAppend | src/material_graph/knowledge/manifest.py:620-641 | The automaton is compositional wherever the first part does not end in a quote |
| Framing.LineByLine | src/material_graph/knowledge/manifest.py:863-879 | Carrying the quote state from line to line equals scanning the whole pending record |
| Framing.AssembledRecords | src/material_graph/knowledge/manifest.py:863-879 | Assembled records end at the first line end outside quotes, respect the limit, and are the beginning of what was read; the end is complete if and only if they are all of it |
| Framing.UnitsAreRecords | src/material_graph/knowledge/manifest.py:863-879 | The same for whole files through framing, long lines included |
| Framing.PrintedIsRecord | src/material_graph/knowledge/manifest.py:620-641 | A record printed by the quoting rules of section 2 of RFC 4180, with or without its line break, is one record, not fewer lines and not more |
| Framing.FinishRecord | src/material_graph/knowledge/manifest.py:863-879 | Reading on from inside a record stops exactly at its end |
| Framing.FinishLast | src/material_graph/knowledge/manifest.py:863-879 | A last record without its line end is read to the end of the data as one record |
| Framing.RecordsReassemble | src/material_graph/knowledge/manifest.py:863-879 | A file of records, the last with or without its line end, reads back as exactly those records |
| Framing.PrintedFilesReassemble | src/material_graph/knowledge/manifest.py:863-879 | A file of printed records is reassembled record for record, whether or not the last has its line break |
| Manifest.UpsertHolds | src/material_graph/knowledge/manifest.py:794-805 | Upserting the next row, for the first time or again, is never refused and leaves the records and pointers of the clean run, in a table that repeating rows explains |
| Manifest.AgainSimilar | src/material_graph/knowledge/postgres.py:470-547 | Repeating the last upsert on any table with its records and pointers keeps both |
| Manifest.TidyAgrees | src/material_graph/knowledge/postgres.py:549-594 | In a run none of whose states relates a pair by two DOIs the relations are the recomputed ones throughout |
| Manifest.HeldRelations | src/material_graph/knowledge/postgres.py:549-594 | A table left by the rows of a clean run, some of them upserted more than once, is that run's table, relations included, if every row is harmless |
| Manifest.ReplayHarmlessIff | src/material_graph/knowledge/postgres.py:549-594 | Repeating the last upsert of a clean run leaves its catalog if and only if every pair related by a repaired DOI is stored under the last such DOI |
| Manifest.HarmlessIff | src/material_graph/knowledge/postgres.py:470-594 | Every row of a run is harmless if and only if, after each of its rows and whatever was repeated before, the catalog is the clean run's; a row that is not shows when it alone is repeated |
| Manifest.TidyIsHarmless | src/material_graph/knowledge/postgres.py:549-594 | A run none of whose states relates a pair by two DOIs is harmless |
| Repetition.StableStays | src/material_graph/knowledge/manifest.py:835-841 | Steps that change nothing when taken twice in a row may each be repeated any number of times |
| Repetition.StableIff | src/material_graph/knowledge/manifest.py:835-841 | Repetitions never show at any point of a run if and only if every step of it is such a step |
| Manifest.CrashMovesRelation | src/material_graph/knowledge/manifest.py:835-841 | A manifest of one row, not harmless, for which dying between upsert and save keeps records and pointers but moves a pair to another DOI |
| Manifest.BoundaryAt | src/material_graph/knowledge/manifest.py:807-879 | After any number of units the rest of the data frames and assembles to the other units, so every saved offset is a record boundary |
| Manifest.CursorsProgress | src/material_graph/knowledge/postgres_manifest.py:129-145 | Every cursor a run saves is valid and passes the progress rule over the one before it |
| Manifest.CleanFrom | src/material_graph/knowledge/manifest.py:807-917 | Continuing a clean run from any point gives the clean run's verdict |
| ManifestRows.CsvRun | src/material_graph/knowledge/manifest.py:863-907 | A CSV manifest whose header gives these names yields exactly the rows its records decode to, up to the end or to the first record refused, whose code is the verdict |
| ManifestRows.CsvAlways | src/material_graph/knowledge/manifest.py:863-917 | Every CSV manifest is of this kind, or stops without a row because it has no header or the header is refused |
| ManifestRows.JsonRun | src/material_graph/knowledge/manifest.py:807-847 | A manifest of JSON lines yields exactly the rows its lines that are not empty decode to, up to the end or to the first one refused |
| ManifestRows.JsonAlways | src/material_graph/knowledge/manifest.py:807-847 | Every manifest of JSON lines is of this kind |
| ManifestRows.RowsTellHistory | src/material_graph/knowledge/manifest.py:794-805 | A clean run over these rows into an empty catalog leaves one record per path, the merge of the rows of that path |
| Manifest.MetadataManifestIngestor.Save | src/material_graph/knowledge/postgres_manifest.py:196-230 | The repository keeps a cursor if and only if it is new, equal or progress |
| Manifest.MetadataManifestIngestor.Upsert | src/material_graph/knowledge/manifest.py:794-805 | The catalog's upsert keeps the durable invariant, for the first time or again |
| Manifest.MetadataManifestIngestor.Consume | src/material_graph/knowledge/manifest.py:835-841 | One unit: refused as a clean run refuses it, or upserted and saved with a possible death before either, which leaves the durable state at the unit |
| Manifest.MetadataManifestIngestor.Commit | src/material_graph/knowledge/manifest.py:835-841 | Saves the cursor of the next unit, with a possible death before; the save is never refused |
| Manifest.MetadataManifestIngestor.HandleUnit | src/material_graph/knowledge/manifest.py:807-917 | One unit ends the run with the clean verdict, or leaves the durable state at the unit on a death, and otherwise at the next with its cursor saved |
| Manifest.MetadataManifestIngestor.TakeLine | src/material_graph/knowledge/manifest.py:863-917 | One physical line is held back inside quotes, refused beyond the record limit, or completes the next unit of the clean run |
| Manifest.MetadataManifestIngestor.DieAfterUpsert | src/material_graph/knowledge/manifest.py:835-841 | When the process dies between the upsert and the save of a row and another resumes, the catalog at the next cursor is the clean run's if and only if that row is harmless |
| Manifest.MetadataManifestIngestor.IngestJsonl | src/material_graph/knowledge/manifest.py:807-847 | One attempt on a JSONL manifest keeps the durable invariant, dies only out of budget, and otherwise reaches the clean verdict |
| Manifest.MetadataManifestIngestor.IngestCsv | src/material_graph/knowledge/manifest.py:849-917 | The same for CSV, gathering physical lines until the quotes close |
| Manifest.MetadataManifestIngestor.Ingest | src/material_graph/knowledge/manifest.py:660-728 | The same behind the version and offset checks, which a durable cursor always passes |
| Manifest.MetadataManifestIngestor.IngestUntilDone | src/material_graph/knowledge/manifest.py:660-917 | For any crash points, restarting until done ends with the records, canonical pointers, record count, field names and verdict of one clean run; the catalog is that run's with some rows repeated, and equal to it, version relations included, if every row is harmless |
| SharedLimiter.SharedLLMLimiter.Acquire | src/material_graph/knowledge/concurrency.py:536-566 | Counters and answer of entering the limiter |
| SharedLimiter.SharedLLMLimiter.Release | src/material_graph/knowledge/concurrency.py:586-596 | Fails exactly when nothing of the workload is active |
| SharedLimiter.EveryRunSafe | src/material_graph/knowledge/concurrency.py:494-596 | Over all interleavings the counters are the unreturned leases and the waiting callers, bulk leaves the reserve free, waiters are bounded, and no release fails |
| SharedLimiter.ReserveAdmitsInteractive | src/material_graph/knowledge/concurrency.py:529-534 | An interactive caller is admitted at once while fewer than the reserved number are active |
| SharedLimiter.ReserveWakesInteractive | src/material_graph/knowledge/concurrency.py:529-566 | A waiting interactive caller may go on whenever fewer than the reserved number are active |
| SharedLimiter.AdmittedIff | src/material_graph/knowledge/concurrency.py:536-566 | In every reachable state a caller gets a lease exactly if fewer than all slots are out and, for bulk, no interactive caller waits and a slot outside the reserve is free; otherwise it waits, unless the queue is full |
| SharedLimiter.WakesIff | src/material_graph/knowledge/concurrency.py:529-566 | A waiting caller may go on exactly under the same condition, and then holds a lease |
| SharedLimiter.BulkYields | src/material_graph/knowledge/concurrency.py:529-534 | A bulk lease is granted only with no interactive caller waiting and never from the reserve |
| SharedLimiter.DoubleReleaseHarmless | src/material_graph/knowledge/concurrency.py:481-485 | Releasing a lease again changes nothing |
| AdaptivePool.AdaptiveProviderPool.Acquire | src/material_graph/knowledge/concurrency.py:181-208 | Counters and answer of entering the pool |
| AdaptivePool.AdaptiveProviderPool.RecordSuccess | src/material_graph/knowledge/concurrency.py:222-244 | Limit and window after a success, and whether the limit grew |
| AdaptivePool.AdaptiveProviderPool.UpdateEffectiveMax | src/material_graph/knowledge/concurrency.py:158-179 | Invalid limits are refused; others clamp the current limit and restart the window |
| AdaptivePool.AdaptiveProviderPool.RecordRateLimited | src/material_graph/knowledge/concurrency.py:246-289 | A rate limit halves the limit, never below one, restarts the window, and allows a retry while attempts are left |
| AdaptivePool.EveryRunBounded | src/material_graph/knowledge/concurrency.py:109-250 | Over all interleavings the limit stays between one and the effective maximum, activity within the hard maximum, counts equal leases and waiters, releases never fail, and growths times the window never exceed the successes |
| AdaptivePool.GrowsByOnePerWindow | src/material_graph/knowledge/concurrency.py:222-244 | The limit grows by one, only on the healthy success that completes a window |
| AdaptivePool.ActivatesWithinLimit | src/material_graph/knowledge/concurrency.py:181-208 | New work starts only below the current limit |
| AdaptivePool.AdmittedIff | src/material_graph/knowledge/concurrency.py:181-208 | In every reachable state a caller gets a slot exactly below the limit; otherwise it waits, unless the queue is full |
| AdaptivePool.FullWindowGrows | src/material_graph/knowledge/concurrency.py:222-244 | A full window of healthy calls raises the limit by one below all maximums, and never beyond |
| AdaptivePool.RateLimitHalves | src/material_graph/knowledge/concurrency.py:246-250 | A rate limit leaves half of the limit and at least one, and starts the window again |
| AdaptivePool.UpdateCuts | src/material_graph/knowledge/concurrency.py:158-179 | New maximums cut the limit down to the smallest of them and never raise it |
| AdaptivePool.OpensAt | src/material_graph/knowledge/concurrency.py:109-157 | A pool opens at its initial limit, or at the smallest maximum if that is less |
| Extraction.ExhaustionConflicts | src/material_graph/knowledge/extraction.py:813-828 | The exhaustion write is refused if and only if the extraction waits for a retry |
| Extraction.LowerPolicyConflicts | src/material_graph/knowledge/extraction.py:813-828 | Under a lower limit than the one it was written under, a checkpoint makes the exhaustion write conflict exactly when it waits at or above the new limit; under the same or a higher limit never |
| Extraction.LoweredLimitConflicts | src/material_graph/knowledge/extraction.py:813-828 | A concrete history under limit two whose exhaustion write conflicts under limit one |
| Extraction.HistoriesAreBounded | src/material_graph/knowledge/extraction.py:341-357 | Any chain of accepted checkpoints has at most sixteen entries, attempts never fall, and nothing follows a completed or failed one |
| Extraction.EvidenceFactExtractionPipeline.Save | src/material_graph/knowledge/extraction.py:374-386 | A checkpoint is kept if and only if its transition is valid |
| Extraction.EvidenceFactExtractionPipeline.CallProvider | src/material_graph/knowledge/extraction.py:830-842 | An attempt is recorded as running before the provider is called, and the process may die around either |
| Extraction.EvidenceFactExtractionPipeline.Settle | src/material_graph/knowledge/extraction.py:868-912 | A reply is recorded as the batch, as a wait for the next attempt exactly if it may be retried and one is left, or as the end |
| Extraction.EvidenceFactExtractionPipeline.Attempts | src/material_graph/knowledge/extraction.py:830-916 | The attempt loop keeps the books, never conflicts, and ends with the first batch a reply produces or the first failure that is final or leaves no attempt, every earlier reply having failed for a retry |
| Extraction.EvidenceFactExtractionPipeline.Extract | src/material_graph/knowledge/extraction.py:762-916 | From a checkpoint written under any limits a save conflicts exactly when it waits at or above this limit, and then nothing changes; under one limit the provider is called at most `max_attempts` times in total, a completed or failed extraction causes no further call, and the result is what the replies from the next attempt on come to |
| Extraction.EvidenceFactExtractionPipeline.ExtractUntilSettled | src/material_graph/knowledge/extraction.py:762-916 | The same over any sequence of runs that die anywhere, ending settled; the stored batch or error is that of the reply to its own attempt |
| Chunking.SentencesFacts | src/material_graph/knowledge/textbook_chunking.py:147-148 | Sentences are trimmed and keep every visible character in order |
| Chunking.SentencesEndAtStops | src/material_graph/knowledge/textbook_chunking.py:147-148 | No sentence has a stop before its end |
| Chunking.CutSentence | src/material_graph/knowledge/textbook_chunking.py:156-160 | Pieces of a long sentence fit the budget, lose no visible character, and are no more than its length takes |
| Chunking.SplitToUnits | src/material_graph/knowledge/textbook_chunking.py:147-170 | Units fit the budget, are trimmed, and keep every visible character of the text in order; if no sentence exceeds the budget, no two neighbours would have fitted into one |
| Chunking.RenderLength | src/material_graph/knowledge/textbook_chunking.py:173-180 | A rendered chunk is as long as its prefix, the gap and its trimmed body |
| Chunking.AddUnit | src/material_graph/knowledge/textbook_chunking.py:208-258 | A body is closed exactly if it would exceed the target with the unit; with room for the prefix, the next body fits the maximum, holds the unit whole, and is a continuation or a successor with the stripped overlap exactly if that fits; the truncation is unreachable |
| Chunking.ChunkBlocks | src/material_graph/knowledge/textbook_chunking.py:183-260 | With room for every prefix, the bodies are exactly the segments' texts above the content minimum under their page and section, the segments hold every unit whole and in order, each body fits, and each segment was closed only because the next unit would have exceeded the target |
| Chunking.ChunkTextbookDocument | src/material_graph/knowledge/textbook_chunking.py:263-288 | Every returned chunk fits the maximum, and the defensive error needs a prefix that leaves no room |
| Selection.UniqueFacts | src/material_graph/knowledge/selection.py:371-380 | One record per identifier, taken from the sources, to which no namesake is preferred |
| Selection.UniqueRecords | src/material_graph/knowledge/selection.py:371-380 | The loop keeps that record of each identifier |
| SelectionReading.KeptIsRichest | src/material_graph/knowledge/selection.py:371-380 | The record kept of an identifier is one given under it, and none given is richer |
| Selection.Screen | src/material_graph/knowledge/selection.py:300-330 | Eligible and rejected sources with their reasons, against plain definitions |
| SelectionReading.EligibleMeans | src/material_graph/knowledge/selection.py:300-330 | By the fields: a source is eligible exactly if it is a candidate with enough metadata, nothing of its digest was processed, and it is the richest candidate of its digest |
| SelectionReading.ReasonMeans | src/material_graph/knowledge/selection.py:300-330 | By the fields: the reason each other source is given |
| Selection.SortFacts | src/material_graph/knowledge/selection.py:219-237 | The stable sort orders by score and keeps the identifiers |
| SelectionReading.SortOrder | src/material_graph/knowledge/selection.py:219-237 | The order of the sort, exactly: by score, and as before where scores are equal |
| Selection.NormalizedFacts | src/material_graph/knowledge/selection.py:194-216 | A normalised ranking has no repeats and exactly the allowed identifiers the ranker named |
| Selection.NormalizedInOrder | src/material_graph/knowledge/selection.py:194-216 | It lists them in the order of their first positions |
| Selection.NormalizeRankOutput | src/material_graph/knowledge/selection.py:194-216 | The loop over the ranker's answer yields that ranking |
| Selection.Rank | src/material_graph/knowledge/selection.py:394-437 | Whatever the rankers answer, the final order is a permutation of the eligible sources: lexical, fused, then overridden by the reranker |
| SelectionReading.LexicalOrder | src/material_graph/knowledge/selection.py:394-411 | Before any ranker: by lexical score, then the primary corpus, then identifiers |
| SelectionReading.FusionKeepsAgreement | src/material_graph/knowledge/selection.py:219-237 | A source ahead in the lexical order stays ahead after fusion if the semantic ranker puts it ahead too, or names neither |
| SelectionReading.RerankOrder | src/material_graph/knowledge/selection.py:425-437 | The reranker's answer comes first, in its order; the rest follows in the fused order |
| SelectionReading.FinalOrderMeans | src/material_graph/knowledge/selection.py:394-437 | The final order follows the reranker where it speaks, and agreement of the other two where it is silent |
| Selection.Spend | src/material_graph/knowledge/selection.py:333-354 | Down the ranking a source is selected exactly when both limits still allow it |
| Selection.GreedyIsWellSpent | src/material_graph/knowledge/selection.py:333-354 | Count and page limits hold, and every deferred source would still overflow one of them after all decisions |
| SelectionReading.WithinBudget | src/material_graph/knowledge/selection.py:287-354 | What is selected keeps the policy's limits on sources and pages and the caller's page budget |
| Selection.BaseOrderUnique | src/material_graph/knowledge/selection.py:173-177 | The order before any score is unique, so one request has one answer |
| Selection.Select | src/material_graph/knowledge/selection.py:275-368 | Refuses exactly unsearchable gaps and negative budgets; otherwise ranked decisions within budget, then every other source with its reason in identifier order |
| Selection.OneDecisionPerSource | src/material_graph/knowledge/selection.py:275-368 | Each distinct source is decided exactly once |
| Selection.SelectedDigestsUnique | src/material_graph/knowledge/selection.py:300-323 | No two selected sources share a digest, and none shares one with a processed record among those kept, one per identifier |
| Selection.EligibleProcessedIff | src/material_graph/knowledge/selection.py:300-323 | Over all sources given, an eligible source shares its digest with a processed one if and only if that one gave way to a preferred record of its own identifier |
| Selection.ProcessedNamesakeIsSelected | src/material_graph/knowledge/selection.py:371-380 | Two records of one identifier and digest, of which the richer is selected although the other was processed |
| Processing.TransitionsProgress | src/material_graph/knowledge/postgres.py:750-769 | Every lifecycle, job and retry transition passes the durable progress rule |
| Processing.AdvanceProgressIff | src/material_graph/knowledge/postgres.py:750-769 | A stage advance passes it if and only if it does not replace a persisted decision |
| Processing.ProgressTransitive | src/material_graph/knowledge/postgres.py:750-769 | The rule is transitive, so a run of accepted saves is progress |
| Processing.AdvancesMean | src/material_graph/knowledge/processing.py:272-304 | A running source moves on by one stage in the one order there is, and into the stages that read its body only under a decision that selects it |
| Processing.RetriesMean | src/material_graph/knowledge/processing.py:306-329 | A retry is scheduled from a run or its failure only, and counts one attempt; resuming makes it run again |
| Processing.SettledStays | src/material_graph/knowledge/processing.py:238-270 | No transition leaves a terminal job or lifecycle, a job succeeds only from running, and evidence is retained only by an eligible source |
| Retention.RankedFacts | src/material_graph/knowledge/retention.py:82-85 | Ranking keeps exactly the assessments, best confidence first and then by block index |
| Retention.Retain | src/material_graph/knowledge/retention.py:60-113 | Fails exactly on a repeated or unknown block index, and otherwise keeps down the ranking every eligible block whose text is new, up to the limit |
| Retention.RetainedFacts | src/material_graph/knowledge/retention.py:82-113 | For every list of assessments: within the limit, no text and no block twice, each fragment that of an eligible assessment, and no eligible text missing while there was room |
| Retention.KeptIsSupported | src/material_graph/knowledge/retention.py:87-109 | Every fragment is the stripped text of a block that was accepted, certain enough, of a kind not excluded, and long enough, with its place |
| Retention.PassedOverForBetter | src/material_graph/knowledge/retention.py:82-113 | A supported block is passed over only if its text is kept already or the limit was reached with surer ones |
| Retention.StableFragments | src/material_graph/knowledge/ingestion.py:708-731 | The loop gives every fragment the identifier of its content, page, block and section |
| Retention.FragmentsDistinct | src/material_graph/knowledge/ingestion.py:708-731 | The stable identifiers of one body never repeat, by their text and again by their block |
| Retention.RowsCountIff | src/material_graph/knowledge/postgres.py:939-966 | A list of fragments fills as many rows of the evidence table as it is long if and only if no identifier repeats |
| Retention.FragmentsFillRows | src/material_graph/knowledge/ingestion.py:662-683 | So the persisted fragment count is the number of rows the fragments fill |
| Retention.SelectFragments | src/material_graph/knowledge/ingestion.py:652-661 | Selector and identifiers together: refused exactly for refused assessments, and what is made durable fills as many rows as it has fragments |
| Ingestion.ResumeRefusedIff | src/material_graph/knowledge/ingestion.py:599-605 | Writing another decision on a resumed checkpoint is refused exactly while it is at SELECT |
| Ingestion.KnowledgeIngestionPipeline.IngestUnderOtherDecision | src/material_graph/knowledge/ingestion.py:590-605 | However often a source at SELECT is resumed under another decision, each run is refused as retryable or dies, nothing is read or kept, and the stage never moves |
| Ingestion.KnowledgeIngestionPipeline.Resume | src/material_graph/knowledge/ingestion.py:426-444 | The same guarantees for the part of a run after the checkpoint was loaded, with every fault recorded from what the process holds |
| Ingestion.KnowledgeIngestionPipeline.Save | src/material_graph/knowledge/postgres.py:789-804 | A checkpoint that is not lost before is kept if and only if it is progress; a write may also be reported lost after it took effect |
| Ingestion.KnowledgeIngestionPipeline.Ingest | src/material_graph/knowledge/ingestion.py:323-444 | Over any crash, failing call and lost write: an unselected source touches nothing, checkpoints only progress, from RETAIN on the evidence is exactly the body's fragments and as many rows as counted, a completed index is never inserted into again, a terminal job is final, success implies the index boundary, and an undisturbed run ends as its body says |
| Ingestion.KnowledgeIngestionPipeline.IngestUntilDone | src/material_graph/knowledge/ingestion.py:323-444 | Any processes that die anywhere, meet retryable faults and lose checkpoint writes before or after they take effect, then one undisturbed process, end with the outcome, evidence and fragment count of one clean run; the decision is never refused, and each process inserts at most once |
| Ingestion.KnowledgeIngestionPipeline.IngestSelected | src/material_graph/knowledge/ingestion.py:535-588 | Resumes from whichever stage is durable; the durable evidence always matches its count, and only refused assessments make a fault permanent that the calls did not |
| Ingestion.KnowledgeIngestionPipeline.ParseAndRetain | src/material_graph/knowledge/ingestion.py:590-684 | Reads the body once and only before RETAIN, succeeds only if none of its calls failed, and leaves exactly the body's fragments durable, as many rows as fragments; refused assessments are a permanent fault |
| Ingestion.KnowledgeIngestionPipeline.IndexFragments | src/material_graph/knowledge/ingestion.py:564-588 | At most one insertion before the boundary is persisted, success only through it and only after an accepted insertion if there are fragments, with the outcome of that insertion |
| Ingestion.KnowledgeIngestionPipeline.PassBoundary | src/material_graph/knowledge/ingestion.py:578-588 | The boundary and then the end are written from what is durable; after any fault the process is at most one write behind |
| Ingestion.KnowledgeIngestionPipeline.Finalize | src/material_graph/knowledge/ingestion.py:742-769 | Finishes with the lifecycle the fragment count calls for, or changes nothing |
| Ingestion.KnowledgeIngestionPipeline.RecordFailure | src/material_graph/knowledge/ingestion.py:799-836 | What is durable stays, or becomes the failure of what the process holds, at the same stage and as progress; the boundary is taken back only by a process that does not hold it |
| Ingestion.BoundaryTakenBackIff | src/material_graph/knowledge/ingestion.py:790-836 | A durable index boundary is taken back exactly when its write took effect, was reported lost, and the write of the failure took effect too |
| Ingestion.ReparsedCountIff | src/material_graph/knowledge/ingestion.py:686-705 | When attempts that parsed other bodies died after persisting, the count of the last body equals the durable rows if and only if no earlier attempt kept a fragment that it does not |
| Ingestion.ReparsedDiffers | src/material_graph/knowledge/ingestion.py:662-705 | Two readings of one block that leave two rows where one is counted |

## Left out

- GraphWriter.CompatibleMeansSameSkeleton: aliases are sets; the order of a merged alias list, where ties under case folding follow set iteration, is not modelled.
- FactGraph.ProjectFactBatch: text cleaning, unit and condition validators and field patterns of fact models are not modelled; texts carry their case-folded form, and the lists that validators sort are taken as given.
- AgeWriter.PostgresAGEGlobalKnowledgeGraphWriter.WriteBatch: byte limits on parameters, label and edge-type whitelists and the scan for internal locations are not modelled; the node and edge count limits are.
- AgeWriter.PostgresAGEGlobalKnowledgeGraphWriter.Transact: advisory locks and driver failures are not modelled; the transaction is atomic.
- JobQueue.InMemoryKnowledgeJobRepository.Enqueue: payload contents other than graph orders are opaque requests; result summaries of ingestion jobs are opaque.
- PostgresJobs.PostgresKnowledgeJobRepository.Claim: which rows other transactions hold locked is a parameter; with locks nothing is said about fairness. Size limits on payloads and results are not modelled.
- ReviewProtocol.RunsKeepInv: drafts are the identifier and projection of completed extractions; redaction of stored batches is not modelled.
- Catalog.InMemorySourceCatalog.Upsert: DOI normalisation, version keys and the process-data status of incoming records belong to the caller; relations are a set, not a sorted list; counters in `stats` are not modelled.
- Manifest.MetadataManifestIngestor.Ingest: the catalog is the PostgreSQL one; the in-memory one recomputes pointers and relations from its records. JSON and CSV cell decoding, field mapping and metadata limits are deterministic parameters; provider failures while streaming are not modelled, and the counts of created and updated records are not returned.
- SharedLimiter.EveryRunSafe: no progress is claimed for waiting bulk callers: an interactive waiter that leaves does not notify, so an enabled bulk waiter may sleep until the next release or its timeout. Cancellation inside a release is not modelled.
- AdaptivePool.EveryRunBounded: retry delays and jitter are not modelled; latency enters as healthy or not.
- Extraction.EvidenceFactExtractionPipeline.Extract: content drift, fragment size checks and caller-supplied checkpoints are not modelled; runs on one fragment do not overlap.
- Chunking.ChunkTextbookDocument: block parsing, label shortening and content hashes are not modelled; the prefix is an arbitrary function that starts with a visible character.
- Selection.Select: lexical scores, metadata sufficiency and page counts are inputs; fused scores are exact reals instead of floats.
- Ingestion.KnowledgeIngestionPipeline.Ingest: within the runs of one source parsing and assessing yield one body; `Ingestion.ReparsedCountIff` says what another body does to the evidence. Spooling, parsing and assessment are external calls; checkpoint metadata is reduced to the fields the pipeline reads.
- Retention.Retain: fragments carry what identifies them; retention reasons, supported entities, tables, figures and metadata are not modelled, nor is a row refused because it differs from a stored one in these. Confidence is a real instead of a float.
- LayoutIndex.BuildEdgeIndex: file reading, byte order and the node-count query are not modelled; endpoints arrive as numbers.
- GraphAudit.AuditGraph: percentiles, taxonomy counters and ranked node lists of the report are not modelled.
- HTTP clients, upload polling, provider adapters, service startup, command-line tools, migrations and layout geometry: input and output around unseen services.
- Admission control, canary stages and the signals by which blocks are assessed: single-branch threshold checks.
