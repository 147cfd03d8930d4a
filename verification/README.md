# CPSR-Lite planner: a verified model

CPSR-Lite takes Solana intents and plans how to send them: it builds a conflict graph, peels it into layers,
packs each layer into budgeted chunks, merges small chunks, and leases recent blockhashes while sending.
This project models that planner in Dafny, together with the code it leans on (message compiler, canonical
encoding, Merkle commitments, lookup-table cache, router circuit breaker), and proves what the parts
promise, alone and in composition.

`dafny verify dfyconfig.toml` checks everything.

## Layout

| files | content |
|---|---|
| `Types`, `Integers`, `Sorting`, `KeyOrder` | keys, instructions, intents; machine-word bounds and bytes; stable sorting; the bytewise key order |
| `Semantics` | what running intents means: each reads the accounts it touches and writes its writable ones, by any function |
| `Graph` | arcs, acyclicity, topological orders, layerings, the step invariants of Kahn's algorithm and of layer peeling |
| `Dag`, `DagLaws`, `VisitOrders` | the graph builder with its two orderings; what schedules of the layers guarantee; what the order of visits changes |
| `Packing`, `Chunking`, `ChunkLaws`, `SlackLaws`, `RepeatedKeys`, `TablePacking` | greedy packing in general; the chunk accumulator; budgets, optimality, sizes, slack; the limits of these |
| `Estimator`, `Shortvec` | the reference message size; compact lengths |
| `Merging`, `MergeLaws` | merging of small chunks and its laws |
| `LayerPlans`, `PlanLaws`, `Pipeline`, `ChunkOrders` | planning a layer; what its plans' figures promise; whole bundles; running a stage's chunks in any order |
| `Blockhash`, `LeaseProtocol`, `LeaseFreshness` | the lease manager as an object, and as a step system of any number of threads; what invalidations and boundaries guarantee |
| `Message` | the v0 message compiler |
| `IntentCodec`, `Merkle`, `Commitment` | canonical intent bytes, Merkle roots, chunk and bundle commitments |
| `AltCache`, `AltOrders` | which keys move to a lookup table, and the cache over those choices; what a hash map's order changes |
| `Circuit` | the router's circuit breaker |

## How to read the model

Objects the source updates in place (`Dag`, `ChunkAccumulator`, `BlockhashManager`, `Chunk`,
`CachingAltManager`, `CircuitState`) are classes. Each of their methods is proved equal to a function on
values, or to a stated property of the new state, and the laws are lemmas about those functions. Loops stay loops.

What an intent computes is a parameter: a `Program` gives, for every node and every view of the accounts it
touches, the values it writes. The serial-equivalence results hold for every program and compare both the final
accounts and what each intent read.

Clocks, RPC answers and the routes taken by other threads are parameters or step labels. Where the source
iterates over a hash map, the order is either left open (the graph builder picks accounts in any order) or a
parameter (the lookup-table planner gets the enumeration of its usage map).

Hash functions are parameters. No lemma assumes one to be injective, which no 32-byte hash is: the binding
results ask only that the finitely many strings hashed in the two computations compared do not collide. Rows of one
length need nothing else. Rows of different lengths also need leaves that do not pass for inner nodes.

## Where the code and its documentation differ

- The graph module's notes (`bundler/src/dag/mod.rs:18-21`) promise a chain over all participants of an account
  with a writer. The loop (`bundler/src/dag/mod.rs:145-167`) draws edges from writers to later participants only. A reader
  before a writer gets no edge. `SerialExactly` states when schedules still behave like the key order, and
  `ReadThenWriteIsUnordered` exhibits two intents for which they do not.
- The module promises the same graph whatever the hash map's order (`bundler/src/dag/mod.rs:38`). The arcs are the same, and so are the
  layers, but adjacency lists and conflicts come in the order of the visits: `OrderPlaysNoPartExactly`, `SuccessorsDependOnOrder`.
- `add` inserts keys before it asks for the deltas (`bundler/src/chunking/mod.rs:516-533`), so the recorded bytes
  never contain the growth of the key count or the table overhead that `can_add` checked, and `alt_used` is never set.
  `RecordedForBlock` gives the recorded values in closed form; `SizeRefinement` adds back what is missing.
- `can_add` looks only at whether the message side has room *before* the intent (`bundler/src/chunking/mod.rs:485-496`), so
  `max_alt_keys` can be exceeded: `TableBoundExactly` says when, `TableBoundCanBreak` shows a case. For the same
  reason `fits_in_empty` does not imply `can_add` with tables on: `FitsMeansCanAddExactly`, `FitsButCannotAdd`.
- Footprints keep repeated keys although fields and comments call them unique (`bundler/src/chunking/mod.rs:270-280`).
  Packing uses the fewest chunks without tables and repeats (`FewestChunks`), but not with a repeat (`RepeatedKeyCostsChunk`), and
  not always with tables (`TablesCostChunk`); `FewestChunksWithTables` gives a condition under which it does.
- The lease loop's "defensive" branch (`bundler/src/pipeline/blockhash.rs:245-253`) returns a zero lease when the current blockhash
  is invalidated between the two critical sections: `ZeroLeaseExactly`, `ZeroLeaseIsTaken`.
- A layer boundary is meant to force a refresh (`bundler/src/pipeline/blockhash.rs:319-323`). The pending reason is lost when a fetch under
  way is stored, when the refresh it asks for fails, and when another thread holds the flag: `BoundaryHoldsExactly`, `BoundaryIsForgotten`.
  An invalidation also clears the current blockhash, and only a fetch that was under way can get past it: `InvalidationHoldsExactly`.
- Lengths are cast to 16 bits before encoding (`crates/types/src/intent.rs:132` and `crates/types/src/intent.rs:151`), so the canonical
  bytes decode exactly when both lengths fit: `PreimageRoundTripExactly`, `PreimageCollision`.
- The comment at `bundler/src/alt.rs:146` says programs and signers stay static. The code keeps only signers: a program that is also
  passed as an account moves like any other account: `MovedProgramsExactly`, `ProgramCanMove`.
- The anchor is said to reference all declared indices (`sdk/packages/sdk/src/tx/serializer_parity.ts:48`). A table whose indices are
  all negative is passed over (line 57), although its masked indices are looked up: `AnchorNamesExactly`, `AnchorMissesNegative`.
- A program or payer that is also looked up compiles to a lookup index, because lookups overwrite the index map
  (`sdk/packages/sdk/src/tx/serializer_parity.ts:202-205`): `BuildIndexMap`, `LookedUpProgramIsNotStatic`.
- With a cap on table keys, keys beyond the cap stay static although they cost less than keys that move:
  `StaysAreDearerExactly`, `CheaperKeyCanStay`.

## Model

| member | source | states |
|---|---|---|
| `Scheduling.Dag.Build` | bundler/src/dag/mod.rs:96-179 | the finished graph has exactly the arcs u→v with u first by (priority desc, index asc), u writing and v touching some account; `edges`, `rev_edges` and `edge_set` agree without repeats; each arc is explained exactly once; and lists and conflicts are those of some order of the accounts |
| `Scheduling.GroupByAccount` | bundler/src/dag/mod.rs:116-129 | exactly the touched accounts are listed, each with exactly its participants, in the order of intents and accesses |
| `Scheduling.Dag.ChainAccount` | bundler/src/dag/mod.rs:134-168 | one account's turn adds only true edges and adds every pair the account orders; a pure-reader account adds nothing |
| `Scheduling.Dag.Indegrees` | bundler/src/dag/mod.rs:185-190 | each count is the number of distinct predecessors |
| `Scheduling.Dag.Release` | bundler/src/dag/mod.rs:203-209 | finishing a node leaves every count equal to the unfinished predecessors and reports exactly the successors that reach zero |
| `Scheduling.Dag.TopoOrder` | bundler/src/dag/mod.rs:183-216 | succeeds if and only if the arcs are acyclic, with a permutation of the nodes that respects every arc |
| `Scheduling.Dag.PeelOnce` | bundler/src/dag/mod.rs:238-258 | one turn of the layer loop keeps the peeling invariant and moves the frontier into a layer |
| `Scheduling.Dag.Layers` | bundler/src/dag/mod.rs:220-264 | succeeds if and only if the arcs are acyclic; layers are non-empty and ascending, partition the nodes, arcs climb, and every node past layer 0 has a predecessor one layer down |
| `Graph.PeeledOut` | bundler/src/dag/mod.rs:260-263 | when the frontier runs dry, either all nodes are layered or the graph has a cycle |
| `Scheduling.NetIsComplete` | bundler/src/dag/mod.rs:134-168 | in every order of the accounts the arcs are exactly the edges, agree with both adjacency lists, and are explained once each |
| `VisitOrders.OrderPlaysNoPartExactly` | bundler/src/dag/mod.rs:134-168 | the graph with its lists and conflicts is the same in every order of the accounts if and only if at most one account orders any pair of intents |
| `VisitOrders.SuccessorsDependOnOrder` | bundler/src/dag/mod.rs:152-167 | a writer of two accounts and a reader of each: the writer's successors are listed in either order |
| `SchedulingLaws.EdgesAreAcyclic` | bundler/src/dag/mod.rs:120-168 | for every intent list the edges are acyclic, so neither ordering ever reports a cycle |
| `SchedulingLaws.LayerIsLongestPath` | bundler/src/dag/mod.rs:220-264 | a node is in layer d if and only if the longest path ending at it has d edges |
| `SchedulingLaws.FewestLayers` | bundler/src/dag/mod.rs:220-264 | no arc-respecting assignment to steps has fewer steps than there are layers |
| `SchedulingLaws.LayersUnique` | bundler/src/dag/mod.rs:220-264 | the arcs determine the layers and the order within them, independent of adjacency and visiting order |
| `Semantics.SameClashOrder` | crates/types/src/intent.rs:23-30 | two orders of the same nodes that agree on every conflicting pair end in the same state and let every node read the same values |
| `SchedulingLaws.SchedulePermutes` | bundler/src/dag/mod.rs:238-258 | running the layers in turn, each in any internal order, runs every node once, in ascending layers |
| `SchedulingLaws.SerialExactly` | bundler/src/dag/mod.rs:145-167 | every schedule of the layers behaves like the sequential key order, for every program, if and only if whoever writes what an earlier intent touches is held back by a longer path of other edges |
| `SchedulingLaws.UnlayeredClashShows` | bundler/src/dag/mod.rs:145-167 | for any clash that is not layered in key order, some program and some schedule of the layers read differently from the key order |
| `SchedulingLaws.SerialWithoutEarlyReaders` | bundler/src/dag/mod.rs:118-168 | if no reader of an account precedes a writer of it in key order, every schedule behaves like the key order |
| `SchedulingLaws.KeyOrderExists` | bundler/src/dag/mod.rs:132-142 | every list of intents has a key order, so the equivalence results speak of every bundle |
| `SchedulingLaws.ReadThenWriteIsUnordered` | bundler/src/dag/mod.rs:152-166 | a reader at priority 5 and a writer at priority 4 get no edge and share a layer, and not every schedule of it behaves like the key order |
| `Packing.PackIsGreedy` | bundler/src/chunking/mod.rs:199-229 | packing yields non-empty accepted blocks that concatenate to the input, and no block could have taken its successor's first element |
| `Packing.FewestBlocks` | bundler/src/chunking/mod.rs:202-222 | if dropping leading elements keeps blocks acceptable, no cutting into acceptable blocks is shorter |
| `Chunking.ChunkAccumulator.DeltasFor` | bundler/src/chunking/mod.rs:424-477 | the loop's counts and bytes equal the closed formula over the keys held |
| `Chunking.ChunkAccumulator.MayAdd` | bundler/src/chunking/mod.rs:479-513 | true exactly when bytes, message keys, table keys, instructions and compute units stay within limits by the deltas |
| `Chunking.ChunkAccumulator.PlaceKeys` | bundler/src/chunking/mod.rs:516-532 | keys go to the message until the reserve is full and then to the tables, writable and read-only apart |
| `Chunking.ChunkAccumulator.Add` | bundler/src/chunking/mod.rs:515-541 | the new state is the old one with keys inserted first and the deltas of the new key tables added |
| `Chunking.ChunkAccumulator.TakePlannedChunk` | bundler/src/chunking/mod.rs:543-551 | hands out exactly what was recorded and leaves no node behind |
| `Chunking.ChunkAccumulator.Reset` | bundler/src/chunking/mod.rs:406-422 | the accumulator is as new |
| `Chunking.ChunkLayerWith` | bundler/src/chunking/mod.rs:186-230 | Ok exactly when every intent fits on its own, with the chunks of the greedy packing; Err names the first intent that does not, with its figures |
| `ChunkLaws.RecordedForOne` | bundler/src/chunking/mod.rs:515-541 | adding an intent unites the key sets and records its own bytes and the instruction-count growth, nothing else |
| `ChunkLaws.RecordedForBlock` | bundler/src/chunking/mod.rs:515-541 | after a block the accumulator holds the union of its keys and plain sums of its intents; `alt_used` is still unset |
| `ChunkLaws.TablesOfBlock` | bundler/src/chunking/mod.rs:522-528 | reported read-only and writable table counts are disjoint and add up to the table keys |
| `ChunkLaws.ChunksWithinBudgets` | bundler/src/chunking/mod.rs:199-229 | for layers whose intents fit on their own, every chunk keeps bytes, instructions, compute units; message keys within min(reserve, budget); table keys within the policy or the overflow of the reserve; and the chunks are a greedy cutting |
| `ChunkLaws.TableBoundExactly` | bundler/src/chunking/mod.rs:485-510 | after an accepted intent `max_alt_keys` holds if and only if the new keys beyond the reserve fit it |
| `ChunkLaws.TableBoundCanBreak` | bundler/src/chunking/mod.rs:485-510 | two intents packed together put one key in a table although the policy allows none |
| `ChunkLaws.FitsMeansCanAddExactly` | bundler/src/chunking/mod.rs:220 | for every policy, an intent that fits on its own satisfies the assertion before `add` on an empty accumulator if and only if tables are off, or nothing is reserved for the message, or all its keys counted as message keys fit the key and byte budgets |
| `ChunkLaws.FitsMeansCanAddByKeys` | bundler/src/chunking/mod.rs:485-496 | when a table is estimated at two bytes or more, the number of keys alone decides that |
| `ChunkLaws.FitsButCannotAdd` | bundler/src/chunking/mod.rs:485-510 | a three-key intent under two reserved slots and two message keys fits on its own and cannot be added |
| `ChunkLaws.FitsIsCanAddWithoutTables` | bundler/src/chunking/mod.rs:356-366 | without tables the two acceptance checks are the same check |
| `ChunkLaws.DroppingKeepsAccepted` | bundler/src/chunking/mod.rs:479-513 | without tables and repeats, a block stays acceptable without its first intent |
| `ChunkLaws.FewestChunks` | bundler/src/chunking/mod.rs:186-230 | without tables and repeats, no cutting of the layer into acceptable blocks has fewer chunks |
| `RepeatedKeys.RepeatedKeyCostsChunk` | bundler/src/chunking/mod.rs:428-444 | four intents, one with a repeated key, are packed into three chunks although two acceptable blocks hold them |
| `RepeatedKeys.CallsAreItems` | bundler/src/chunking/mod.rs:267-292 | the counterexample's footprints are those of four concrete intents |
| `TablePacking.CanAddWithTables` | bundler/src/chunking/mod.rs:424-513 | with tables on and no repeats, acceptance in terms of the block's different keys, its summed bytes and compute units, and whether the reserve is full |
| `TablePacking.FewestChunksWithTables` | bundler/src/chunking/mod.rs:186-230 | with tables on, for intents that repeat no key, leave room next to the reserve and outweigh a table, no cutting into acceptable blocks has fewer chunks |
| `TablePacking.TablesCostChunk` | bundler/src/chunking/mod.rs:485-496 | four concrete intents without repeats, all of which fit on their own, are packed into three chunks although two acceptable blocks hold them |
| `Estimator.EstimateMessageV0Bytes` | crates/estimator/src/size.rs:60-80 | the loop computes the v0 size formula |
| `ChunkLaws.SizeRefinement` | bundler/src/chunking/mod.rs:424-541 | for any block the reference size plus slack is at most the recorded bytes plus the key-count growth and the table overhead left out |
| `ChunkLaws.FitsWithoutTables` | bundler/src/chunking/mod.rs:508 | without tables and with two bytes of slack, an accepted chunk's reference size is at most its recorded bytes, which are within budget |
| `ChunkLaws.FitsWithOneTable` | bundler/src/chunking/mod.rs:458-465 | with one table of fewer than 128 keys a side, the policy's table estimate covers the table overhead left out of the recorded bytes |
| `SlackLaws.SizeExactly` | bundler/src/chunking/mod.rs:424-541 | for any block and policy the reference size equals the recorded bytes less slack, plus what the record leaves out, with the charged key bytes replaced by those the message has |
| `SlackLaws.Overcharged` | bundler/src/chunking/mod.rs:321-325 | two or more intents whose keys overflow the reserve are charged at least 31 bytes more than their keys take |
| `SlackLaws.FitsWithSlack` | bundler/src/chunking/mod.rs:508 | slack for the key-count growth and the table, less 31 bytes for several intents with a reserve, keeps an accepted chunk's reference size within the byte budget |
| `SlackLaws.FitsWithTables` | bundler/src/chunking/mod.rs:508 | two bytes of slack suffice without tables, nine for every chunk of several intents with a reserve, thirty-eight without a reserve, forty for any chunk |
| `SlackLaws.SlackIsNeeded` | bundler/src/chunking/mod.rs:508 | two concrete intents packed together with one byte of slack less than that bound: their message is one byte over the budget |
| `Merging.BuildAccessMap` | bundler/src/pipeline/rollup.rs:36-50 | the map has every touched account, Writable exactly where some intent writes |
| `Merging.CanMergeIntents` | bundler/src/pipeline/rollup.rs:52-78 | true exactly when no intent of one side conflicts with one of the other; then the map summarises both, else it is unchanged |
| `Merging.GrowGroup` | bundler/src/pipeline/rollup.rs:104-154 | the inner loop takes exactly the leading plans the merge rule takes |
| `Merging.MergeSmallChunkPlans` | bundler/src/pipeline/rollup.rs:80-199 | the nested loops compute the recursive merge |
| `MergeLaws.MergeConserves` | bundler/src/pipeline/rollup.rs:147-152 | intents keep their order; compute, byte and table totals are unchanged |
| `MergeLaws.MergedWithinLimits` | bundler/src/pipeline/rollup.rs:136-145 | every plan made of several is within the compute and message limits |
| `MergeLaws.StillStops` | bundler/src/pipeline/rollup.rs:116-145 | every reason to stop before a plan still holds when that plan has grown |
| `MergeLaws.MergeIsFixpoint` | bundler/src/pipeline/rollup.rs:95-198 | merging merged plans changes nothing but clears the recorded indices |
| `MergeLaws.ApartPlansInterleave` | bundler/src/pipeline/rollup.rs:52-63 | pairwise non-conflicting plans may run in any interleaving with the outcome of the merged chunk |
| `MergeLaws.MergedPlansCommute` | bundler/src/pipeline/rollup.rs:131-154 | the source plans of a merged chunk are pairwise apart, so the chunk equals any interleaving of them, for every program |
| `LayerPlans.ChunksCoverLayer` | bundler/src/chunking/mod.rs:202-227 | the chunks of a layer list exactly its nodes, in order |
| `LayerPlans.Materialise` | bundler/examples/rollup_cli.rs:1623-1651 | each chunk becomes a plan with its nodes' intents and its figures |
| `LayerPlans.PlanLayer` | bundler/examples/rollup_cli.rs:1607-1651 | fails exactly when some intent is too large on its own; otherwise the plans are the merge of the greedy chunks with their figures, and list the layer's intents in order |
| `Pipeline.PlanBundle` | bundler/examples/rollup_cli.rs:1592-1651 | fails exactly when some intent is too large on its own, never on a cycle; otherwise the stages hold the layers, every plan is within the chunk budgets or, if merged, within the limits of merging, and every merged plan stands for a message no longer than its estimate |
| `PlanLaws.MergeSources` | bundler/src/pipeline/rollup.rs:95-198 | every plan after merging holds the intents and the summed figures of a stretch of the plans before, a single one exactly if nothing is recorded as merged |
| `PlanLaws.EveryPlanIsBounded` | bundler/src/pipeline/rollup.rs:136-154 | after merging a layer's chunks every plan is within the chunk budgets, or within the compute and message limits if merged |
| `PlanLaws.MergedPlansOfLayerFit` | bundler/src/pipeline/rollup.rs:141-152 | the reference message of a merged plan's intents, taken as one chunk, is at most the plan's summed estimate |
| `Pipeline.WholePlanOrder` | bundler/src/dag/mod.rs:145-167 | unconditionally, every schedule runs each intent once, and whoever writes an account runs in an earlier layer than everyone later in key order who touches it |
| `Pipeline.StagesListLayers` | bundler/examples/rollup_cli.rs:1592-1651 | listed stage by stage and chunk by chunk, the plan holds the intents of the layers in order |
| `Pipeline.PiecesCarryPlans` | bundler/examples/rollup_cli.rs:1623-1651 | cutting a layer along its plans gives each plan its own nodes, and the pieces make up the layer |
| `Pipeline.StagesAreASchedule` | bundler/src/pipeline/rollup.rs:848-870 | running the chunks of every stage in any order is a schedule of the layers |
| `Pipeline.PlannedBundleIsSerial` | bundler/src/pipeline/rollup.rs:848-870 | with the chunks of each stage run in any order, the plan has the outcome of the key order for every program, if writers wait for earlier readers or no reader precedes a writer |
| `ChunkOrders.ChunkOrderExactly` | bundler/src/pipeline/rollup.rs:848-870 | every order of the chunks within their stages behaves like the key order, for every program, if and only if of two clashing intents the one first in key order is in an earlier layer or earlier in the same chunk |
| `Blockhash.BlockhashManager.DecideRefresh` | bundler/src/pipeline/blockhash.rs:192-203 | the first critical section: a pending reason is consumed, else policy decides, else Initial |
| `Blockhash.BlockhashManager.IssueLease` | bundler/src/pipeline/blockhash.rs:243-269 | the second critical section: counts the use, or hands out the zero lease and asks for a refresh |
| `Blockhash.BlockhashManager.Refresh` | bundler/src/pipeline/blockhash.rs:130-143 | a refresh stamps the time taken before the request and installs the lease, or fails and leaves the reason consumed |
| `Blockhash.BlockhashManager.RecordOutcome` | bundler/src/pipeline/blockhash.rs:306-317 | a stale report clears the current blockhash and asks for a manual refresh |
| `Blockhash.BlockhashManager.MarkLayerBoundary` | bundler/src/pipeline/blockhash.rs:319-323 | only the pending reason changes |
| `Blockhash.BlockhashManager.Lease` | bundler/src/pipeline/blockhash.rs:189-304 | whenever the call ends within some number of turns, the loop ends in the state and with the answer of those turns |
| `Blockhash.LoneLeaseEnds` | bundler/src/pipeline/blockhash.rs:189-304 | a lone call with prompt fetches ends within three turns, one fetch and one validity check, with the fetched lease, the current one within policy, or the node's error |
| `Blockhash.LoneLeaseEndsExactly` | bundler/src/pipeline/blockhash.rs:130-304 | on every node, a lone call ends if and only if there is no age limit, or its first turn returns (its refresh fails, or it needs none and no validity check rejects the lease), or some fetch yet to come fails or takes no longer than the age limit |
| `LeaseProtocol.OneRefresher` | bundler/src/pipeline/blockhash.rs:205-238 | in every interleaving of any number of threads at most one is between taking and releasing the refresh flag |
| `LeaseProtocol.UsesBounded` | bundler/src/pipeline/blockhash.rs:145-269 | in every interleaving of N threads no installed blockhash is handed out more than refresh_every + N - 1 times |
| `LeaseProtocol.BoundIsReached` | bundler/src/pipeline/blockhash.rs:192-304 | for every quota and N, with or without validity checks, some interleaving reaches that number |
| `LeaseProtocol.ZeroLeaseExactly` | bundler/src/pipeline/blockhash.rs:243-269 | a thread gets the zero lease if and only if the last change to the current blockhash between its critical sections was an invalidation; otherwise it gets the current one |
| `LeaseProtocol.ZeroLeaseIsTaken` | bundler/src/pipeline/blockhash.rs:245-253 | a lone thread whose blockhash is reported stale between its sections takes the zero lease |
| `LeaseProtocol.CurrentWasStored` | bundler/src/pipeline/blockhash.rs:213-223 | whatever is current was stored by a refresh of the run or current at its start |
| `LeaseProtocol.LeasesWereFetched` | bundler/src/pipeline/blockhash.rs:207-238 | in every interleaving the current lease, every lease about to be installed and every lease handed out for checking carry the hash and height of a successful fetch of the run |
| `LeaseProtocol.LeaseWasFetchedExactly` | bundler/src/pipeline/blockhash.rs:192-269 | from the start, in every interleaving, a thread's second section gives it a lease fetched by some thread of the run, unless the last change to the current blockhash since its first section was an invalidation; then it gives the zero lease, unchecked |
| `LeaseProtocol.CheckedLeaseWasFetched` | bundler/src/pipeline/blockhash.rs:271-304 | a lease that passes its validity check was fetched |
| `LeaseFreshness.NewLeasesExactly` | bundler/src/pipeline/blockhash.rs:192-238 | from any state with a caller yet to come, every lease decided from then on comes of a fetch begun from then on if and only if policy would hand out neither the current blockhash nor one whose fetch is under way |
| `LeaseFreshness.InvalidationHoldsExactly` | bundler/src/pipeline/blockhash.rs:306-317 | after a stale report that holds if and only if no fetch under way is still within the age limit and the quota allows a use |
| `LeaseFreshness.BoundaryHoldsExactly` | bundler/src/pipeline/blockhash.rs:319-323 | after a layer boundary it holds exactly when it holds without the boundary |
| `LeaseFreshness.BoundaryIsForgotten` | bundler/src/pipeline/blockhash.rs:213-223 | a boundary that falls while a lone thread fetches is forgotten: the blockhash whose fetch began before it is handed out with nothing pending |
| `Message.BuildAltAnchorInstruction` | sdk/packages/sdk/src/tx/serializer_parity.ts:49-73 | present if and only if some table has a non-negative index; its accounts are exactly the looked-up addresses of the tables that have one, none signing, writable as looked up |
| `Message.AnchorNamesExactly` | sdk/packages/sdk/src/tx/serializer_parity.ts:54-63 | the anchor's accounts are the looked-up addresses in order if and only if every table with an index has a non-negative one |
| `Message.AnchorMember` | sdk/packages/sdk/src/tx/serializer_parity.ts:54-63 | an account is in the anchor if and only if some table with a non-negative index looks it up with those rights, and it does not sign |
| `Message.AnchorMissesNegative` | sdk/packages/sdk/src/tx/serializer_parity.ts:56-57 | a table with the index -1 alone: nothing is anchored, its last address is looked up |
| `Message.Collect` | sdk/packages/sdk/src/tx/serializer_parity.ts:128-160 | each static key is recorded once with the OR of its uses, the payer signing and writable |
| `Message.Partition` | sdk/packages/sdk/src/tx/serializer_parity.ts:163-175 | the four classes split the keys by their flags |
| `Message.PayerComesFirst` | sdk/packages/sdk/src/tx/serializer_parity.ts:177-181 | sorting puts the payer at the head of the first class |
| `Message.BuildIndexMap` | sdk/packages/sdk/src/tx/serializer_parity.ts:202-205 | every static or looked-up key maps to a position that holds it, a static one if and only if the key is not looked up |
| `Message.Layout` | sdk/packages/sdk/src/tx/serializer_parity.ts:186-230 | payer at index 0, static keys distinct, header bits of every static index equal to the OR of the key's uses plus the payer's rights |
| `Message.AllCovered` | sdk/packages/sdk/src/tx/serializer_parity.ts:208-223 | no program or account is missing from the index map, so neither throw is reached |
| `Message.BuildMessageV0Parity` | sdk/packages/sdk/src/tx/serializer_parity.ts:100-247 | fails only on a price that does not fit 64 bits; else the compiled instructions read back through static then looked-up keys as the originals, the static keys are exactly the ones needed, sorted by class, with exact rights; and an instruction names a static index if and only if the key is not looked up |
| `Message.LookedUpProgramIsNotStatic` | sdk/packages/sdk/src/tx/serializer_parity.ts:202-223 | a program whose key is also in a table is carried among the static keys and yet called through the table |
| `Shortvec.EncodeShortU16` | crates/types/src/intent.rs:170-182 | the byte loop produces the unsigned LEB128 encoding (section 7.6 of DWARF 4) of a 16-bit number |
| `Shortvec.RoundTrip` | crates/types/src/intent.rs:170-182 | decoding gives back the number and leaves what follows |
| `Shortvec.PrefixFree` | crates/types/src/intent.rs:170-182 | equal concatenations have equal numbers and rests |
| `Shortvec.ShortvecLen` | bundler/src/serializer.rs:26-38 | the length loop returns the length of the encoding |
| `Shortvec.TableIsLoopExactly` | bundler/src/chunking/mod.rs:239-247 | the three-way table equals the loop if and only if the count is below 2^21 |
| `IntentCodec.BuildPreimage` | crates/types/src/intent.rs:124-152 | the buffer loop produces the canonical bytes |
| `IntentCodec.PreimageRoundTripExactly` | crates/types/src/intent.rs:124-156 | a decoder gives the instruction back if and only if both lengths fit 16 bits |
| `IntentCodec.PreimageInjective` | crates/types/src/intent.rs:124-156 | within 16-bit lengths different instructions have different bytes |
| `IntentCodec.PreimageCollision` | crates/types/src/intent.rs:132-152 | beyond 16 bits two different instructions share their bytes |
| `IntentCodec.AccessesFromIx` | crates/types/src/intent.rs:54-79 | one entry per key in key order, Writable exactly if some meta writes |
| `IntentCodec.ClashIsConflict` | crates/types/src/intent.rs:25-29 | two intents clash in the state semantics if and only if some of their accesses conflict |
| `IntentCodec.DerivedAccesses` | crates/types/src/intent.rs:54-79 | with derived accesses an intent touches and writes what its instruction names |
| `Merkle.MerkleRoot` | crates/types/src/merkle.rs:4-21 | the level-by-level loop computes the digest of the tree defined from the top |
| `Merkle.TreeByLevel` | crates/types/src/merkle.rs:8-19 | pairing a row up takes one level off the tree |
| `Merkle.HeightIsLeast` | crates/types/src/merkle.rs:8-19 | the loop's number of rounds is the least height with room for the leaves |
| `Merkle.PaddedStarts` | crates/types/src/merkle.rs:8-19 | the full row a short one stands for starts with it and has two to the height leaves |
| `Merkle.OddTailRepeats` | crates/types/src/merkle.rs:10-13 | an odd row of three or more leaves has the root of the row with its last leaf repeated |
| `Merkle.EqualLengthBinds` | crates/types/src/merkle.rs:4-21 | rows of any digests of one length have equal roots if and only if they are equal, when no two inner strings of the two trees collide |
| `Merkle.RootsMeetExactly` | crates/types/src/merkle.rs:4-21 | rows of any digests and any lengths have equal roots if and only if the loop takes the higher one, at the height of the other, to a row that stands for the same full row |
| `Merkle.HashedLengthBinds` | crates/types/src/bundle.rs:36-47 | rows of hashed strings of one length have equal roots if and only if they are equal, whatever the strings are |
| `Merkle.RootBinds` | crates/types/src/merkle.rs:4-21 | without collisions, rows of hashed strings of any two lengths, none of which passes for an inner node, have equal roots if and only if they stand for the same full row |
| `Merkle.LeafCanPassForNode` | crates/types/src/merkle.rs:15-17 | one leaf that hashes two digests has the root of those two leaves, so rows of different lengths need leaves that do not pass for nodes |
| `Merkle.PaddedSame` | crates/types/src/merkle.rs:10-13 | rows of one length stand for the same full row if and only if they are equal |
| `Commitment.VersionStringInjective` | crates/types/src/version.rs:32-43 | the digest's string tells every field |
| `Commitment.SameRankExactly` | crates/types/src/version.rs:18-22 | the order ties exactly on equal key and slot |
| `Commitment.OccRootBinds` | crates/types/src/bundle.rs:36-41 | without collisions, version roots are equal if and only if the sorted rows stand for the same full row |
| `Commitment.OccRootBindsEqualCounts` | crates/types/src/bundle.rs:36-41 | with as many versions the roots are equal if and only if the sorted rows are |
| `Commitment.OccRootIgnoresOrder` | crates/types/src/bundle.rs:36-41 | with one version per key and slot the root ignores the order of versions |
| `Commitment.OccRootIgnoresOrderExactly` | crates/types/src/bundle.rs:36-41 | without collisions among arrangements, it ignores the order if and only if no key and slot carries two different versions |
| `Commitment.NodeSizedExactly` | crates/types/src/intent.rs:124-156 | an intent's hashed string is as long as two digests if and only if it has no accounts and 17 data bytes |
| `Commitment.IntentRootBindsEqualCounts` | crates/types/src/bundle.rs:44-47 | with as many intents, all of 16-bit lengths, intent roots are equal if and only if the instructions are, in order |
| `Commitment.IntentRootBinds` | crates/types/src/bundle.rs:44-47 | for any two counts intent roots are equal if and only if the instruction rows stand for the same full row, when no inner string starts with the intent tag or no intent hashes a string as long as two digests |
| `Commitment.ChunkIdBinds` | crates/types/src/bundle.rs:50-52 | for any counts, under the same condition, two chunk ids are equal if and only if both rows agree |
| `Commitment.ChunkIdBindsContents` | crates/types/src/bundle.rs:50-52 | with equal counts and 16-bit lengths, ids are equal if and only if the instructions agree in order and the sorted versions agree, and then the versions agree up to order |
| `Commitment.BoundStringTells` | crates/types/src/bundle.rs:55-72 | the stronger id's string tells roots, session, nonce and plan, up to absent versus all-zero |
| `Commitment.BundleRootBinds` | crates/types/src/bundle.rs:97-100 | bundle roots are equal if and only if the rows of chunk commitments stand for the same full row |
| `Commitment.Chunk.Normalize` | crates/types/src/bundle.rs:75-78 | versions end up sorted and no commitment changes |
| `Commitment.Chunk.ComputeOccRoot` | crates/types/src/bundle.rs:36-41 | computes the root over the sorted versions |
| `Commitment.Chunk.RecomputeMerkleRoot` | crates/types/src/bundle.rs:81-83 | the stored root becomes the root over the intents |
| `AltCache.BuildKeyUsage` | bundler/src/alt.rs:115-132 | one record per key used but the payer's, with its capped frequency and the OR of its rights |
| `AltCache.ChooseKeys` | bundler/src/alt.rs:134-192 | the chosen keys are the ranked movable keys past the free slots, cut at the cap, in key order |
| `AltCache.SplitConserves` | bundler/src/alt.rs:147-192 | every movable key is kept, moved or left over, exactly once, within the sizes the policy sets |
| `AltCache.SplitByCost` | bundler/src/alt.rs:175-192 | kept keys cost at least as much as moved ones, and moved ones as left-over ones |
| `AltCache.StaysAreDearerExactly` | bundler/src/alt.rs:190-192 | no static movable key costs less than a moved one if and only if the cap cuts nothing, moves nothing, or cuts among equal costs |
| `AltOrders.CheaperKeyCanStay` | bundler/src/alt.rs:190-192 | three keys used three times, twice and once, one free slot and a cap of one: the second moves and the cheaper third stays |
| `AltCache.MovedKeysAreSafe` | bundler/src/alt.rs:134-192 | moved keys are used, never payer or signer, distinct, in key order and within the cap, for any hash-map order |
| `AltOrders.MovedExactly` | bundler/src/alt.rs:134-192 | over all orders in which the hash map may yield the keys: some order moves a key if and only if tables are used, the key may move, the cap is not zero, fewer dearer keys than kept and moved ones exist, and more keys at least as dear than free slots; every order moves it if and only if at least as many dearer keys as free slots exist, and at most as many at least as dear as kept and moved ones |
| `AltOrders.MovedProgramsExactly` | bundler/src/alt.rs:146-157 | in every order all programs stay static if and only if every program passed as an account, unsigned and not the payer, has too many dearer keys for the cap, or fits the free slots with all keys as dear, or the cap is zero |
| `AltOrders.OrderDoesNotMatterExactly` | bundler/src/alt.rs:144-192 | every order moves the same list of keys if and only if every key that some order moves is moved by every order |
| `AltOrders.KeysAreRanked` | bundler/src/alt.rs:168-173 | in every order the ranking lists the movable keys once each, dearest first |
| `AltCache.ProgramCanMove` | bundler/src/alt.rs:146-157 | one intent that passes its own program as an account, under one reserved slot: the program moves |
| `AltCache.CacheKeyTells` | bundler/src/alt.rs:363-370 | cache keys are equal if and only if keys and writable bits are |
| `AltCache.MarksDecide` | bundler/src/alt.rs:264-282 | keys and writable bits determine the answer, frequencies do not matter |
| `AltCache.StatsCountMoved` | bundler/src/alt.rs:271-276 | the figures of an answer count exactly the moved keys that are written and those that are only read |
| `AltCache.ConcatKeysTells` | bundler/src/alt.rs:351-360 | the string behind a table key tells its addresses |
| `AltCache.StepIsTransparent` | bundler/src/alt.rs:245-296 | one call keeps every entry equal to what its key would be answered afresh, and answers so itself |
| `AltCache.CacheIsTransparent` | bundler/src/alt.rs:245-296 | in every history and under any clock each answer equals the uncached one but for the hit flag |
| `AltCache.HitsExactly` | bundler/src/alt.rs:248-257 | a call hits if and only if the last call that computed its choice stored it with an expiry still ahead |
| `AltCache.CachingAltManager.ComputeOffloadPlan` | bundler/src/alt.rs:134-297 | the method's new cache and answer are those of the step function |
| `AltCache.CachingAltManager.ResolveTables` | bundler/src/alt.rs:301-326 | keeps the entry invariant, answers as an uncached manager but for the hit flag, and counts the answer |
| `Circuit.CircuitState.RecordFailure` | bundler/src/er/mod.rs:948-960 | counts the failure and trips at the threshold, returning the end of the trip exactly then; does nothing at threshold zero |
| `Circuit.CircuitState.IsTripped` | bundler/src/er/mod.rs:969-978 | reports a trip still running, and forgets an expired one with its failures |
| `Circuit.PostJson` | bundler/src/er/mod.rs:1140-1199 | refuses exactly while tripped, on the router's origin and with a threshold set; else the state steps by the answer |
| `Circuit.TripsExactly` | bundler/src/er/mod.rs:947-979 | in every sequential run a send trips if and only if it fails and the failures in a row are a multiple of the threshold |
| `Circuit.QuietAfterTrip` | bundler/src/er/mod.rs:1150-1164 | after a send trips, no send starts before the cooldown is over |
| `Circuit.WindowBound` | bundler/src/er/mod.rs:1140-1199 | sends of a stretch that only fails, within any window of length L, number at most threshold * (floor(L / cooldown) + 1) |
| `Circuit.WindowBoundIsReached` | bundler/src/er/mod.rs:1140-1199 | for every whole number of cooldowns some run reaches that number |

## Left out

- Chunking.ChunkLayerWith: the `debug_assert!` is not executed, as in a release build; when it holds is `ChunkLaws.FitsMeansCanAddExactly`.
- ChunkLaws.FewestChunks: one direction only; layers with repeated keys can still be packed optimally, and no condition short of comparing cuttings separates them.
- TablePacking.FewestChunksWithTables: one direction only, for the same reason.
- ChunkLaws.FitsWithOneTable: the key-count growth stays on the right-hand side, since the chunker never records it; `SlackLaws.FitsWithSlack` covers it by the slack.
- Chunking.ChunkAccumulator.Add: saturation of the byte, instruction and compute counters at the machine word is not modelled.
- Merging.MergeSmallChunkPlans: 64-bit overflow of the summed estimates is not modelled; the log-only merge reason is omitted.
- LayerPlans.PlanLayer: merging is always on, while the source merges only when the ephemeral-rollup path asks for it; materialised plans without merging keep the same intents in the same order.
- Pipeline.StagesAreASchedule: a chunk is one transaction, so the intents of two chunks of a stage never interleave here, and a stage starts when the one before it is done.
- Scheduling.Dag.TopoOrder: which of the orders that respect the arcs it returns is not stated; ties follow the adjacency lists.
- LeaseFreshness.NewLeasesExactly: asks for one thread that is not in a call; without one, threads already in their second section may be the only ones left to act.
- Scheduling.Dag.Build: node ids are natural numbers, not 32-bit; indegrees do not saturate.
- Blockhash.BlockhashManager.Lease: no other thread acts during the call; interleavings are in `LeaseProtocol`.
- Blockhash.BlockhashManager.IssueLease: the use counter does not saturate at 32 bits.
- AltCache.CachingAltManager.ResolveTables: managers with a table catalog, whose answers depend on an outside table set, are not modelled; the branch for an empty list of keys past the free slots cannot be reached and is omitted.
- AltCache.ChooseKeys: costs are unbounded integers instead of 64-bit ones.
- Circuit.PostJson: one request at a time; retries inside a send are part of its outcome.
- Commitment.BundleRootBinds: stated on the pairs of roots that chunk ids hash; the bundle record itself, its age check and its fields are omitted.
- Poisoned mutexes, logging and the metrics of the blockhash manager.
- RPC, HTTP, wiretap, telemetry and command-line code; an answer from outside is a parameter.
- `process_chunk`, `prepare_er_stage` and `execute_router`: network branching. Nothing here says that an intent is submitted only once.
- `build_v0_message` and the library's own message compiler: not part of this model, so no claim that an accepted chunk compiles; the payer key and the compute-budget instructions are outside the chunker's count.
- Optimistic-concurrency capture, fee clamps, safety factors, percentiles and the averaging oracle: floating point or single expressions.
- SDK submitters, builders and clients, serialisation derives, the emitter stub and the adapter interface.
