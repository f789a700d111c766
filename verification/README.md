# A verified model of the LegalLens ingest pool

LegalLens ingests annotated contracts with a pool of worker processes. A driver parses the corpus and
dispatches one task per contract; a consistent hash ring routes each task to a worker's list in Redis;
the worker pops its list and runs a handler that makes separate commits to three stores (contract rows,
vectors, clause rows); an agent searches and grades what was stored. This project models that path and
proves what it promises for every input, every run and every reachable state.

The end-to-end statement is `EndToEnd.ParsedIngest`: for documents parsed by this parser, at every
moment of every interleaving of dispatches, pops, single commits, failures, crashes, ring refreshes and
risk scorings, the three stores agree with each other and are those of a sequential ingest of the
commits made so far, in dispatch order. `EndToEnd.ReturnedIsComplete` adds that nothing is missing, and
`Drain.RunsCanDrain` that the workers can always get there.

How it is laid out:

| file | what it holds |
|---|---|
| `Options.dfy`, `LexicalOrder.dfy` | absent values and errors; the order of strings and the stable insertion sort by it |
| `HashRing.dfy`, `Rebalancing.dfy` | the ring as a class refining the naive clockwise rule; disruption, history, collisions, key counts |
| `Membership.dfy`, `Registry.dfy` | the heartbeat protocol in time as a state machine; registry and monitor as classes |
| `Dispatcher.dfy`, `Embedder.dfy`, `IngestWorker.dfy` | dispatcher, Redis lists, task queue, chunked embedder, handler and worker loop as classes |
| `IngestStores.dfy` | what each commit writes; retries; when two tasks may be reordered |
| `Pool.dfy`, `PoolInvariant.dfy`, `Conservation.dfy` | the pool as a system of atomic steps and the invariant of its runs; nothing lost, duplicated or reordered |
| `Refinement.dfy` | the classes do what the steps of the pool say |
| `Serializability.dfy`, `Retries.dfy` | every interleaving is a sequential ingest; at-least-once delivery acts once |
| `Locality.dfy`, `Rerouting.dfy` | which membership changes keep a contract on one list; what happens, and exactly when, if one moves |
| `Drain.dfy` | how much work a run can do, and that living workers can do it all |
| `CrossStore.dfy`, `RiskHeuristic.dfy`, `RiskLevels.dfy`, `Retrieval.dfy` | agreement of the stores, of stored risks with texts, of search results with scores |
| `Geometry.dfy`, `Ranking.dfy`, `VectorIndex.dfy` | the local vector index: map refinement, top-k, dot product and distance |
| `Slug.dfy`, `Parser.dfy`, `EndToEnd.dfy` | category slugs, clause identity, de-duplication; the corpus meets the pool |
| `AgentLoop.dfy` | the bounded agent loop and the automaton of its event stream |

Conventions. Digests, embedding model, case mapping, white-space stripping and the extraction of a quoted
category are function-valued parameters, never axioms. Injectivity of a digest is a premise, stated only
for the finite set of strings in play and only where it is needed: the canonical rebuild, minimal
disruption, conservation, serializability and retry safety hold with collisions. The pool takes the ring
that a refresh installs as a function of the scan, so its theorems hold for any such function;
`Pool.RebuildsSorted` says that it is the registry's sorted rebuild, where that matters. Source columns give
paths in the repository.

Where code and comments differ, the model follows the code:

- `src/legallens/orchestration/dispatcher.py:7-12` describes an audit row; `dispatch` writes none.
- `scripts/ingest_worker.py:12-13` says every step is a conflict-free upsert; the clause upsert leaves the
  category and the risk columns of an existing row (`CrossStore.RewriteKeepsRisk` and
  `CrossStore.IngestKeepsBacked` say what follows).
- `LocalNumpyIndex.upsert` looks ids up once before a batch, so a batch that repeats a new id appends it
  twice (`VectorIndex.UpsertKeepsUnique`).
- `remove_worker` drops a point whoever owns it, so adding and removing a worker is not neutral after a
  collision (`Rebalancing.AddThenRemove`).
- Per-contract locality (`src/legallens/workers/hash_ring.py:4-6`) holds through membership changes that
  leave a contract's worker in place (`Locality.StayingOwnersColocate`); once a refresh moves a contract, a
  later task can overtake an earlier one (`Rerouting.Overtaking`, `Rerouting.TwoTasksExactly`).
- The agent's `chat_history` is passed on but never extended; it stays empty and is not modelled.

Nothing was executed; the statements below are about the model.

## Model

| member | source | states |
|---|---|---|
| HashRing.LabelIs | src/legallens/workers/hash_ring.py:43 | the label of virtual node `i` is the one string that is the worker id, `#`, and digits without a leading zero that denote `i` in base ten |
| HashRing.LabelInjective | src/legallens/workers/hash_ring.py:43 | labels `worker#i` of different virtual nodes differ, even for worker ids that contain `#` |
| HashRing.ClockwiseRule | src/legallens/workers/hash_ring.py:67-72 | the first point clockwise is the least strictly above the hash, or the least of all when none is above |
| HashRing.SpotsArePoints | src/legallens/workers/hash_ring.py:42-43 | a worker's points are exactly the digests of the strings that are labels of its virtual nodes 0 up to the number of them |
| HashRing.SortedKeys | src/legallens/workers/hash_ring.py:45 | the array is strictly ascending and holds exactly the keys of the dictionary |
| HashRing.BisectRight | src/legallens/workers/hash_ring.py:68 | everything before the index is at most the hash, everything from it on is above |
| HashRing.ConsistentHashRing.constructor | src/legallens/workers/hash_ring.py:30-33 | an empty ring in which the array matches the dictionary |
| HashRing.ConsistentHashRing.AddWorker | src/legallens/workers/hash_ring.py:41-45 | the dictionary gains exactly the digests of the worker's labels, all owned by it, keeps every other entry, and the array invariant is restored |
| HashRing.ConsistentHashRing.RemoveWorker | src/legallens/workers/hash_ring.py:47-51 | the dictionary loses exactly the digests of the worker's labels, whoever owns them, keeps every other entry, and the array invariant is restored |
| HashRing.ConsistentHashRing.ReplaceWorkers | src/legallens/workers/hash_ring.py:53-62 | the dictionary holds exactly the digests of the listed workers' labels, each owned by the last worker listed that has it, whatever was there, and the array invariant is restored |
| HashRing.ConsistentHashRing.GetWorker | src/legallens/workers/hash_ring.py:64-72 | bisection with wrap-around returns the owner of the clockwise first point of the dictionary, and none exactly on an empty ring |
| Rebalancing.SortedRebuild | src/legallens/workers/hash_ring.py:57-62 | a rebuild from a sorted list holds all points of all its workers, each owned by the largest worker id with a virtual node there |
| Rebalancing.CanonicalRebuild | src/legallens/coordination/worker_registry.py:76-92 | scans with the same members, in any order and with repetitions, build identical rings, with no assumption on collisions |
| Rebalancing.MinimalDisruption | src/legallens/workers/hash_ring.py:53-72 | across any two rebuilds, a key whose old owner stayed and whose new owner was there before does not move, even with collisions |
| Rebalancing.JoinStealsOnly | src/legallens/workers/hash_ring.py:41-45 | on any ring a join changes an owner only to the newcomer |
| Rebalancing.AddThenRemove | src/legallens/workers/hash_ring.py:41-51 | adding a worker and removing it restores the ring if and only if none of its points was taken before |
| Rebalancing.JoinOrder | src/legallens/workers/hash_ring.py:41-45 | the order of two joins is immaterial if and only if the two workers share no point |
| Rebalancing.InjectiveDigest | src/legallens/workers/hash_ring.py:36-44 | a digest that is injective on the labels in play makes no two workers collide |
| Rebalancing.RingAfterHoldsExactly | src/legallens/workers/hash_ring.py:41-62 | without collisions, after any sequence of add, remove and replace the ring holds exactly the points of the live workers, each owned by its worker |
| Rebalancing.HistoryIndependence | src/legallens/workers/hash_ring.py:41-62 | without collisions, any sequence of add, remove and replace leaves the ring of one replace by the live set, listed in any order |
| Rebalancing.HistoryForgottenExactly | src/legallens/workers/hash_ring.py:41-62 | over all sequences of add, remove and replace among given workers, the ring depends only on who is live if and only if no two of them share a point |
| Rebalancing.MovesIffOwned | src/legallens/workers/hash_ring.py:47-51 | without collisions a key moves on a removal if and only if the removed worker owned it |
| Rebalancing.EveryKeyMovesOnce | src/legallens/workers/hash_ring.py:7-8 | over the removals of each of two or more workers, the moves of any list of K keys sum to exactly K |
| Rebalancing.FairShare | src/legallens/workers/hash_ring.py:7-8 | some worker's removal moves at most K / N of the keys |
| Registry.StrippedWorkers | src/legallens/coordination/worker_registry.py:80-82 | a scan lists a worker exactly if it reports that worker's heartbeat key |
| Registry.SameScanSameRing | src/legallens/coordination/worker_registry.py:76-92 | processes whose scans report the same heartbeat keys, in any order, build the same ring and route every key alike |
| Registry.WorkerRegistry.Register | src/legallens/coordination/worker_registry.py:48-53 | a scan finds the worker's key exactly until the time to live has passed, no other key is touched, and a join is announced |
| Registry.WorkerRegistry.Heartbeat | src/legallens/coordination/worker_registry.py:55-57 | prolongs the life of the worker's key to a full time to live from now, and touches no other |
| Registry.WorkerRegistry.Deregister | src/legallens/coordination/worker_registry.py:59-63 | no later scan finds the worker's key, no other key is touched, and a leave is announced |
| LexicalOrder.FirstDifferenceDecides | src/legallens/coordination/worker_registry.py:82 | strings sort by the smaller character at their first difference |
| LexicalOrder.PrefixFirst | src/legallens/coordination/worker_registry.py:82 | a string sorts before what it begins |
| Registry.WorkerRegistry.ListWorkers | src/legallens/coordination/worker_registry.py:76-82 | the worker ids of the scanned keys, in order, repetitions kept |
| Registry.WorkerRegistry.RefreshRing | src/legallens/coordination/worker_registry.py:84-92 | the ring is the rebuild from the sorted scan, whatever it was, and its array invariant holds |
| Registry.HeartbeatMonitor.Run | src/legallens/orchestration/heartbeat.py:34-55 | with the event watcher refreshing between its rounds, the monitor leaves a valid ring that is the rebuild of the last refresh, after its own rounds that of the list last given to the callback, and calls back on changes between its own scans only |
| Registry.CallbackFollowsRing | src/legallens/orchestration/heartbeat.py:40-54 | who follows the callback always knows the current list, and successive calls differ |
| Registry.ChangesAreSelected | src/legallens/orchestration/heartbeat.py:44-52 | the callback is given exactly the lists that differ from the one before, the first from the empty list, in order |
| Registry.MonitorListsAre | src/legallens/orchestration/heartbeat.py:43 | these lists are the sorted scans of the monitor's own refreshes, in order |
| Rebalancing.RoutedToMembersOnly | src/legallens/coordination/worker_registry.py:84-92 | after a rebuild no key is routed to a worker that the scan did not report |
| Registry.SetMirrors | src/legallens/coordination/worker_registry.py:48-57 | what registering and heartbeating do to the keys that scans find is what the SET of the timed protocol does, at every later time |
| Registry.DeleteMirrors | src/legallens/coordination/worker_registry.py:59-63 | what deregistering does to the keys that scans find is what the deletion of the timed protocol does |
| Registry.RoutedWithinLag | src/legallens/orchestration/heartbeat.py:40-55 | in every run of the timed protocol, no key is routed to a worker whose heartbeat key has been gone for longer than the monitor's rest and two scans |
| Membership.StepKeepsInv | src/legallens/coordination/worker_registry.py:48-115 | each step (time passing, register, heartbeat, deregister, crash, begin and end of the monitor's and the watcher's scans) keeps the protocol invariant |
| Membership.RunKeepsInv | src/legallens/coordination/worker_registry.py:48-115 | every run of the timed protocol keeps the invariant |
| Membership.RunningKeysNeverExpire | src/legallens/coordination/worker_registry.py:28-30 | when heartbeats are late by less than the time to live allows, a running worker's key is live at every moment |
| Membership.RingFollowsKeys | src/legallens/orchestration/heartbeat.py:40-55 | at every moment a worker running for longer than the monitor's rest and two scans is in the ring, and one whose key has been gone for longer is not |
| Membership.DeathIsDetected | src/legallens/coordination/worker_registry.py:7-8 | a worker that crashes is out of the ring once the time to live, the monitor's rest and two scans have passed since its last SET |
| Dispatcher.TaskDispatcher.Dispatch | src/legallens/orchestration/dispatcher.py:58-74 | the worker is the ring's owner of the digest of the task's routing key; its list `queue:<worker>` alone gets the task at its end; without an owner, or with an empty worker id, it fails and pushes nothing |
| Dispatcher.TaskDispatcher.DispatchMany | src/legallens/orchestration/dispatcher.py:76-96 | succeeds exactly if every task's routing key has an owner; then each worker's list gets exactly the tasks it owns, in order, these are returned, no other list changes, and the lists are those of successive dispatches; otherwise nothing is pushed |
| Dispatcher.EachGetsItsShare | src/legallens/orchestration/dispatcher.py:58-96 | each worker's list grows by exactly its share of the tasks |
| Dispatcher.ShareIsShare | src/legallens/orchestration/dispatcher.py:83-88 | a worker's share is the tasks whose routing key's digest the ring gives to it, none missing, in their order |
| Dispatcher.PipelineIsInTurn | src/legallens/orchestration/dispatcher.py:83-90 | the pipeline of planned pushes has the effect of successive dispatches |
| Dispatcher.WorkerTaskQueue.Pop | src/legallens/workers/task_queue.py:28-36 | removes and returns the oldest task of the worker's own list, none on an empty one, and touches no other list |
| Embedder.ChunksCover | src/legallens/ingestion/embedder.py:46-49 | the requests cover the texts in order; none is empty or longer than 96 |
| Embedder.CohereEmbedder.Embed | src/legallens/ingestion/embedder.py:45-56 | with a model that answers batches pointwise, chunked embedding is the pointwise embedding of the whole list |
| IngestWorker.RecordsAreClauses | scripts/ingest_worker.py:77-92 | re-pairing clauses and vectors gives each clause id the embedding of its own text, under the contract and the clause's category |
| IngestWorker.Worker.UpsertVectors | scripts/ingest_worker.py:76-93 | the second commit, through embedding and re-pairing: each clause's vector |
| IngestWorker.Worker.InsertClauses | scripts/ingest_worker.py:95-119 | the third commit: the insert loop is the upsert of the whole batch in one transaction |
| IngestWorker.Worker.HandleIngestContract | scripts/ingest_worker.py:52-122 | a handler that fails after any number of commits leaves exactly that prefix of them; without clauses there is only one |
| IngestWorker.Worker.Handle | src/legallens/workers/worker.py:92-115 | an unknown kind does nothing, and a failing handler leaves the commits it made |
| IngestWorker.Worker.Poll | src/legallens/workers/worker.py:79-83 | one round takes the head of the worker's own list and attempts it, or changes nothing |
| IngestWorker.Worker.Run | src/legallens/workers/worker.py:72-90 | the loop handles its list from the front, each task once and in order whatever failed before, and leaves the rest of the list and all other lists |
| IngestWorker.FaultlessWork | src/legallens/workers/worker.py:79-83 | without faults the loop is the sequential ingest of its list |
| IngestStores.PutVectorsReads | scripts/ingest_worker.py:82-93 | after a vector batch each id holds the record of its last clause in the batch, and other ids are untouched |
| IngestStores.PutRowsReads | scripts/ingest_worker.py:97-119 | a clause batch changes only rows of its contract, each as its own clauses fold |
| IngestStores.FoldedShape | scripts/ingest_worker.py:102-108 | an upserted row has the last text and vector id of the batch; an existing row keeps category and risk, a new one has the first category and no risk |
| IngestStores.CommitTwice | scripts/ingest_worker.py:10-13 | every commit made twice in a row has the effect of one |
| IngestStores.Absorbed | scripts/ingest_worker.py:10-13 | an attempt on top of an earlier attempt at the same task is the further of the two |
| IngestStores.RetryIsSafe | scripts/ingest_worker.py:10-13 | from any stores, any aborted attempts followed by a complete one leave what a single complete attempt leaves |
| IngestStores.CommitsCommute | scripts/ingest_worker.py:52-122 | any two commits of compatible tasks commute, whatever is stored |
| IngestStores.ReorderableExactly | scripts/ingest_worker.py:52-122 | the order of two ingests is immaterial in all stores if and only if they give a shared contract the same file and a shared clause id the same record |
| PoolInvariant.StepKeepsInv | src/legallens/workers/worker.py:79-115 | every step of the pool keeps the bookkeeping invariant of lists, hands and outcomes |
| PoolInvariant.RunKeepsInv | src/legallens/workers/worker.py:79-115 | every run of the pool keeps the invariant |
| Conservation.RunLogs | src/legallens/orchestration/dispatcher.py:58-96 | the dispatch log of a run is exactly what was dispatched, in order |
| Conservation.Conserved | src/legallens/workers/task_queue.py:3-8 | in every run each dispatched task is in exactly one place once: the list it was routed to, the hand of that worker, or resolved by it |
| Conservation.Fifo | src/legallens/workers/task_queue.py:5 | what a worker has popped and what still waits are together the tasks routed to it, in dispatch order |
| Conservation.LossesAreCrashes | src/legallens/workers/worker.py:12-13 | at most one task is lost for each crashed worker |
| Refinement.DispatchRefines | src/legallens/orchestration/dispatcher.py:58-67 | a push by the dispatcher is an enqueue step of the pool |
| Refinement.DispatchManyRefines | src/legallens/orchestration/dispatcher.py:76-90 | a batch dispatch is the batch step of the pool |
| Refinement.PopRefines | src/legallens/workers/task_queue.py:28-36 | popping the head of a list is a pop step, of the task whose ticket is first |
| Refinement.PollRefines | src/legallens/workers/worker.py:79-83 | a round of the worker's loop, with any fault, is a run of the pool |
| Refinement.WorkerRunRefines | src/legallens/workers/worker.py:72-90 | any number of rounds of the loop, with any faults, is a run of the pool with the same lists and stores at its end |
| Refinement.UpsertRefinesCommit | src/legallens/ingestion/pinecone_writer.py:115-137 | for de-duplicated clauses the local index's upsert is the vector commit of the pool and keeps ids unique |
| Locality.DifferentContracts | src/legallens/ingestion/parser.py:46-48 | tasks of different contracts are compatible, because clause ids start with the fixed-length contract id |
| Serializability.ReplayOneMore | scripts/ingest_worker.py:52-122 | a commit in the middle of the dispatch order is that commit at the end, if the later ones are compatible |
| Serializability.StepSerial | src/legallens/workers/worker.py:79-115 | every step keeps the stores equal to a replay of the log |
| Serializability.RunsAreSerializable | src/legallens/workers/worker.py:79-115 | at every moment of every run, with failures, crashes and ring changes, the stores are those of the commits made so far executed task by task in dispatch order, if two ingests that may not be reordered were pushed to the same list; exactly so without scorings, and apart from the risk columns with them |
| Serializability.SerialEquivalence | src/legallens/workers/hash_ring.py:4-6 | under the same condition, every interleaving without failures that drains the lists leaves the stores of processing the tasks one by one in dispatch order |
| Retries.RetriesActOnce | scripts/ingest_worker.py:10-13 | with failures, crashes, rerouting and retries in any order, once some attempt at each task returned the stores are those of one sequential ingest of each task, if any two are compatible |
| Locality.RunRouted | src/legallens/orchestration/dispatcher.py:58-67 | in every run each task went to the list of the owner of its routing key's digest in the ring of the moment of its dispatch |
| Locality.StayingOwnersColocate | src/legallens/workers/hash_ring.py:4-8 | whoever else joins or leaves between two tasks of a contract, they go to the same list if the first one's worker is still a member and the second one's already was; collisions included |
| Locality.SteadyMembership | src/legallens/workers/hash_ring.py:4-6 | that condition holds while every scan reports the same workers |
| Drain.WorkIsBounded | src/legallens/workers/worker.py:79-115 | the pops, commits and endings of any run, with those still to come, are at most two and the number of commits for each task dispatched |
| Drain.RunsCanDrain | src/legallens/workers/worker.py:79-83 | every run in which no worker crashed goes on, by worker steps that do not fail, to one that has drained all lists |
| Rerouting.Overtaking | src/legallens/coordination/worker_registry.py:84-92 | on any ring, if the refresh by any scan moves a key between its two tasks, some run without failures ends as if the second had been dispatched first |
| Rerouting.TwoTasksExactly | src/legallens/coordination/worker_registry.py:84-92 | from a dispatcher's start, two ingests with a refresh between them end in dispatch order in all runs, whatever was stored, if and only if both scans route them to one worker or they are compatible |
| Rerouting.ReroutingIsSafeExactly | src/legallens/coordination/worker_registry.py:84-92 | from a dispatcher's start, on a ring that refreshes may change, all runs without failures that drain the lists end as in dispatch order if and only if any two ingests in play are compatible |
| CrossStore.StepAgrees | scripts/ingest_worker.py:58-119 | every step keeps the three stores, the commits under way and the scorings under way in agreement |
| CrossStore.StoresAgree | scripts/ingest_worker.py:58-119 | when a clause id never stands for two clauses, in every reachable state each clause row has its contract row and, under its vector id, the embedding of its own text with its contract and category; and a stored risk is the heuristic's verdict on the row's current text |
| CrossStore.ReturnedIsStored | scripts/ingest_worker.py:52-122 | once an attempt at a task returned, and ever after, each of its clauses is stored with its own text, category and embedding, whatever else runs, fails or crashes |
| CrossStore.RewriteKeepsRisk | src/legallens/retrieval/tools.py:149-160 | an ingest that rewrites texts keeps stored risks correct if and only if every graded row it rewrites would be graded the same again |
| CrossStore.RewriteDuringScoring | src/legallens/retrieval/tools.py:114-160 | with an ingest between the SELECT and the UPDATE of a scoring, stored risks end up correct if and only if the other graded rows would be graded the same and the level read before is right for the clause's rows as they now are |
| CrossStore.IngestKeepsBacked | scripts/ingest_worker.py:52-122 | an ingest into stores whose rows all have their own vector leaves them so if and only if clause ids keep their categories and no vector it overwrites is needed by another row |
| Retrieval.Hydrate | src/legallens/retrieval/tools.py:96-102 | one result for each match that has a row, with that row and the match's score, in the order of the matches |
| Retrieval.HydratedShape | src/legallens/retrieval/tools.py:82-102 | results keep the order of the scores, drop exactly the matches without a row, and carry the score of their own clause |
| Retrieval.SearchShowsWhatItScored | src/legallens/retrieval/tools.py:76-102 | although vectors and rows are read at different moments, each result shows a text together with the score of that very text's embedding, if both moments agree with one assignment of clauses to ids |
| RiskLevels.AssessIsGrade | src/legallens/retrieval/tools.py:127-147 | a text is high if and only if one of the seven listed terms occurs in it lowered, medium if and only if none does but one of the other four, low if and only if none of the eleven does |
| RiskLevels.RationaleExplains | src/legallens/retrieval/tools.py:136-147 | each level has its own rationale, word for word |
| Retrieval.SelectAndGrade | src/legallens/retrieval/tools.py:114-147 | the first transaction gives the level that the terms in a stored text of the clause call for, and none exactly for an unknown clause |
| Retrieval.ScoreClauseRisk | src/legallens/retrieval/tools.py:105-167 | whatever others do between the two transactions, the level that the terms in the clause's text called for is written to the clause's rows as they then are, to no others and to no other column, and returned with its rationale; an unknown clause is an error and nothing is written |
| Geometry.UnitDot | src/legallens/ingestion/pinecone_writer.py:149-151 | unit vectors have a dot product of at most 1, and 1 exactly when they are equal |
| Geometry.CloserIsHigher | src/legallens/ingestion/pinecone_writer.py:149-151 | among unit vectors of any dimension a higher dot product is a smaller Euclidean distance |
| Ranking.RankIsOrdered | src/legallens/ingestion/pinecone_writer.py:159 | the sort lists higher scores first and ties in row order |
| Ranking.TopIsUnique | src/legallens/ingestion/pinecone_writer.py:159 | the declarative top k leaves no choice |
| VectorIndex.UpsertedIds | src/legallens/ingestion/pinecone_writer.py:117-135 | existing rows keep their positions and ids, and the new ids follow in batch order |
| VectorIndex.UpsertKeepsUnique | src/legallens/ingestion/pinecone_writer.py:117-135 | ids stay unique if and only if the batch brings no new id twice |
| VectorIndex.UpsertRefinesMap | src/legallens/ingestion/pinecone_writer.py:115-135 | the represented id-to-record map is the old one overridden by the batch, record by record |
| VectorIndex.ContentsHolds | src/legallens/ingestion/pinecone_writer.py:86-92 | with unique ids the represented map holds exactly the rows |
| VectorIndex.OthersStay | src/legallens/ingestion/pinecone_writer.py:124-130 | rows whose id the batch does not bring stay as they are, where they are |
| VectorIndex.EachIsHeld | src/legallens/ingestion/pinecone_writer.py:121-135 | each record of a batch of different ids is found with its own values and metadata, in an old row if and only if its id was there |
| VectorIndex.DistinctBatch | src/legallens/ingestion/parser.py:93-100 | a batch of pairwise different ids brings no new id twice |
| VectorIndex.LocalNumpyIndex.constructor | src/legallens/ingestion/pinecone_writer.py:94-109 | reopening restores the rows and the manifest that were last saved, and starts empty without files |
| VectorIndex.UpsertedRows | src/legallens/ingestion/pinecone_writer.py:115-135 | the upsert loop, overwriting known rows and collecting new ones, gives parallel arrays that are the upserted rows |
| VectorIndex.LocalNumpyIndex.Upsert | src/legallens/ingestion/pinecone_writer.py:111-137 | rows and manifest stay parallel and are saved; rows of other ids stay where they are; each record of a batch of different ids is found as brought |
| VectorIndex.LocalNumpyIndex.Query | src/legallens/ingestion/pinecone_writer.py:139-167 | each hit shows id, metadata and dot product of one matching row; hits stand by decreasing score, ties in row order; no matching row left out belongs before any of them; there are as many as asked for and there are, and for negative `top_k` as many as a Python slice keeps |
| VectorIndex.TopIsNearest | src/legallens/ingestion/pinecone_writer.py:149-159 | over unit vectors the top rows are the nearest ones, nearest first |
| VectorIndex.StoredVectorFirst | src/legallens/ingestion/pinecone_writer.py:149-159 | asking for a stored vector without a filter puts a record with that very vector first, at score 1 |
| Slug.SlugsAreSlugs | src/legallens/ingestion/parser.py:34-38 | every category uses only `[a-z0-9_]`, with no leading, trailing or doubled underscore |
| Slug.SlugsAreFixed | src/legallens/ingestion/parser.py:38 | the strings that normalising leaves unchanged are exactly the slugs |
| Slug.SlugTwice | src/legallens/ingestion/parser.py:38 | normalising twice is normalising once |
| Slug.SlugKeepsWords | src/legallens/ingestion/parser.py:38 | the normal form is the maximal runs of letters and digits of the lowered text, in order, joined by single underscores |
| Parser.PreimageDecodes | src/legallens/ingestion/parser.py:46-48 | contract, category and text are read back uniquely from the digest's input, even if the text has bars |
| Parser.NothingLost | src/legallens/ingestion/parser.py:93-100 | de-duplication by id loses no clause if and only if ids tell the clauses apart, and then keeps exactly the first occurrences in order |
| Parser.IdsIdentifyExactly | src/legallens/ingestion/parser.py:41-48 | ids tell the clauses of a contract apart if and only if truncated digests are injective on their preimages |
| Parser.ParsingLosesNothing | src/legallens/ingestion/parser.py:71-103 | the parsed contract has the clause of every answer that is not blank if and only if truncated digests do not collide on them, and then exactly the first occurrence of each, in order |
| Parser.DeduplicatedIds | src/legallens/ingestion/parser.py:93-100 | after de-duplication ids are pairwise different, none is missing, and nothing is invented |
| Parser.DeduplicatedKeepsFirst | src/legallens/ingestion/parser.py:93-100 | exactly the clauses whose id did not occur before are kept, in order |
| Parser.CollectedMadeFor | src/legallens/ingestion/parser.py:76-91 | every collected clause has a bar-free category and the id of its contract, category and text |
| Parser.CollectedReadsOff | src/legallens/ingestion/parser.py:76-91 | the collected clauses are, in reading order, one for each answer whose stripped text is not empty, with that text, the category of its question, and the id made from the first ten digits of the digest |
| Parser.CollectedExactly | src/legallens/ingestion/parser.py:76-91 | a clause is collected if and only if some paragraph, question and answer of the document stand for it |
| Parser.Deduplicate | src/legallens/ingestion/parser.py:93-100 | the loop with a seen set is the de-duplication the lemmas are about |
| Parser.ParseCuad | src/legallens/ingestion/parser.py:65-103 | one contract for each document, in order: the first 16 digits of the digest of its title, the title, and the clause of each answer that is not blank, in reading order, without those whose id occurred before |
| EndToEnd.ParsedTaskShaped | scripts/ingest.py:64-72 | the driver's tasks are routed by the contract id that starts all their clause ids |
| EndToEnd.IdsTellClausesApart | src/legallens/ingestion/parser.py:46-48 | unless truncated digests collide within a contract, an id stands for one clause of one contract |
| EndToEnd.ParsedConsistent | scripts/ingest.py:61-74 | unless truncated digests collide within a contract or on titles, any two parsed ingests are compatible, even two versions of one document |
| EndToEnd.ParsedIngest | scripts/ingest.py:61-74 | at every moment of every run over parsed documents, on any changing ring, the stores agree with each other and with the stored risks, hold only clauses of the documents' answers, and are those of the commits so far made in dispatch order; risk columns apart only if something is scored |
| EndToEnd.ReturnedIsComplete | scripts/ingest.py:61-74 | once an attempt at a document's task returned, the clause of every paragraph, question and answer that is not blank is stored with its contract, text, category and embedding |
| EndToEnd.ReturnedIsNamed | scripts/ingest.py:61-74 | then the contract row of the title's digest carries the document's title |
| EndToEnd.DrainedIsComplete | scripts/ingest.py:61-74 | after a drained run without failures that holds for every document dispatched |
| EndToEnd.ParsedRetries | scripts/ingest.py:61-74 | over parsed documents, once some attempt at each task returned, the stores are those of one sequential ingest of each, whatever failed or was rerouted |
| AgentLoop.ContractReviewAgent.CallCohere | src/legallens/agents/loop.py:46-65 | gives the specified reply after at most three attempts |
| AgentLoop.AnswerIsFirst | src/legallens/agents/loop.py:46-65 | that reply is the one of the first attempt that gets one, and none only if all three raise |
| AgentLoop.CallEventsShow | src/legallens/agents/loop.py:102-117 | the events of a round name exactly the calls, with their parameters and in their order, each directly followed by the first 200 characters of its output if it gives one |
| AgentLoop.ResultsAre | src/legallens/agents/loop.py:118-129 | the results are one for each call, in order: its output, its error, or that there is no such tool |
| AgentLoop.RoundShown | src/legallens/agents/loop.py:95-117 | each round of a session is announced with the number of its calls and then shows these calls |
| AgentLoop.ContractReviewAgent.Run | src/legallens/agents/loop.py:67-144 | the first request carries the query alone; there are at most 8 requests and 24 attempts; the last event is the text of a reply without calls, or the error of a round whose three attempts failed, or that of the eighth round, and the session raises exactly for an error |
| AgentLoop.SessionCloses | src/legallens/agents/loop.py:67-144 | every stream is at most eight rounds of `thinking` followed by the announced number of calls with at most one output each, and exactly one closing event, its last: an error if and only if the session raises |
| AgentLoop.FollowUpsAnswerCalls | src/legallens/agents/loop.py:100-133 | each follow-up request carries one result for each call of the round before, in call order |

## Left out

- Redis beyond its lists and expiring keys: Sentinel failover, replica lag, dropped connections. A pipeline and a pop are single atomic steps.
- MD5 and SHA-1 themselves, and how evenly MD5 spreads keys (tests/test_hash_ring.py:32-40, 43-55). Digests are parameters.
- JSON encoding of tasks; a list holds tasks, not bytes.
- The `ingest_tasks` table, `task_id`, and re-dispatch of a dead worker's list: the code has only a callback for it. Tasks on a dead worker's list stay there; no liveness is claimed for them.
- `watch_events` as a method: its refreshes are the watcher steps of `Membership` and the watcher's refreshes in `Registry.HeartbeatMonitor.Run`; its own callback is not modelled.
- The `workers` and `__len__` readouts of the ring.
- Registry.HeartbeatMonitor.Run: runs over the finitely many refreshes it gets to before it is cancelled.
- IngestWorker.Worker.Run: runs for the number of polls after which the stop flag is found set. Signals, registration and the background heartbeat of a worker process are the steps of `Membership`; a heartbeat loop that dies of an exception is not modelled.
- Membership.RunningKeysNeverExpire: assumes the bound on heartbeat delay that the code only intends.
- Timestamps: `ingested_at` and `embedded_at` are erased.
- Clause rows: `page`; clauses: `answer_start`. The two risk columns are one field, the rationale being fixed by the level.
- Several processes sharing one `LocalNumpyIndex` directory, and a crash between the writes of its two files: in the pool the vectors are one atomic map, in the class both files are saved at once.
- VectorIndex.LocalNumpyIndex.Query: scores are exact reals; float32 rounding and NaN are not modelled. A query vector of another dimension, which numpy rejects unless the index is empty, is excluded by a precondition. A filter value that is null is not told apart from a missing one.
- PineconeIndex, and the model behind LocalEmbedder.
- The regular expression that finds a quoted category: a parameter of the parser.
- `extract_clauses`, which is a single query.
- AgentLoop.ContractReviewAgent.Run: the texts of error events and of `thinking` are reduced to what they are about; the registry of tools is a set of names; retry waits, cancellation and exceptions thrown in by the stream's consumer are not modelled.
- Prompts, settings, the HTTP interface, the downloader, and `--limit` of the driver.
