# Excaliflow capacity engine, graph validator and edit history in Dafny

Excaliflow is a canvas for sketching service pipelines: API endpoints,
services, Kafka-style queue topics and datastores, joined by edges. This
project models three of its pieces and proves properties of them.

- **The scenario engine** (`computeScenario`, src/engine/compute.ts). It
  seeds each entry point's rate and orders the nodes with Kahn's algorithm.
  The queue starts with the nodes of in-degree 0 in node order and is
  drained first in, first out. Nodes left over by a cycle are appended in
  node order. That order is the function `Order.Schedule` of the graph. The
  engine then evaluates every node in that order:
  - a service applies its fan-in join, then its capacity from workers,
    partitions and consumer caps;
  - a topic applies its partition and consumer limits;
  - an API endpoint passes its rate through;
  - a datastore applies write-amplified cost units.

  After each node it back-annotates the inbound edges with delivered and
  blocked rates. It then splits or duplicates the node's egress over the
  outbound edges, clamping Kafka edges into a topic by the skew-reduced
  partition count.
- **The graph validator** (`validateGraph`, `edgeById`,
  src/graph/validators.ts). It reports misrouted Kafka edges, topics with
  unusable dials, and one warning when the graph has a directed cycle. The
  cycle is found by a depth-first search over `visiting` / `visited` sets.
- **The edit history** (src/graph/store.ts). The store holds the current
  graph, an undo stack `history`, a redo stack `future` and the selected id.
  Every edit pushes the replaced graph onto `history` and empties `future`.
  Undo and redo move one graph between the two stacks.

Rates, times and dials are `real`. An absent optional value is `None`, and
`Infinity` bounds are modelled as "no bound". `EPSILON` is the real
1/1000000.

The model takes the source's own form:
- Loops that accumulate are methods with loop invariants, proved against
  specification functions: the Kahn queue, the degree and index maps, the
  datastore accumulators, the consumer caps, the warning lists and the DFS.
- The engine's mutable accumulators (`incoming`, `nodeStats`, `edgeStats`,
  `bottlenecks`) are fields of the class `Engine.Scenario`.
- The store is the class `Store.GraphStore`. Each action is proved to
  perform a step function on a `StoreState` value, and the undo/redo lemmas
  are about those step functions.
- Warnings and limiters are datatypes that carry the numbers their messages
  print.

Modules, one per file:
- `Util`: options, min/max, sums and counts.
- `Types`: the graph snapshot.
- `Digraph`: adjacency, walks and cycles, shared by the scheduler and the
  validator.
- `EngineHelpers`: compute.ts:12-67.
- `Order`: the evaluation order and edge indexes.
- `Join`: fan-in joins.
- `Evaluate`: per-node statistics.
- `Flow`: back-annotation and distribution.
- `Engine`: the main loop.
- `Validators`.
- `Store`.
- `Fixtures`: the two example graphs of src/utils/seeds.ts, and a small
  graph whose evaluation order shows the queue discipline and the fallback.

Preconditions of the engine:
- Node ids are unique.
- Every edge starts and ends at an existing node. The source dereferences
  `outByNode.get(e.from)!` and `graph.nodes.find(...)!`, so it fails
  otherwise.

Non-negativity of rates, weights and dials is not a precondition. The bounds
that need it are stated as `NonNegative(g) ==> ...`.

The model follows the code in these places, where the code does something
other than what its design intends or one would expect:

- The consumer cap of a service is the **smallest** bound over its Kafka
  topic sources (compute.ts:196-206), not a sum over them. The available
  partitions, by contrast, are summed (compute.ts:179-183).
- The effective service time floors only `serviceTimeMs` at EPSILON
  (compute.ts:25). With a cache-hit rate of 1 and a cache-hit time of 0 it
  is 0. The capacity formula floors its divisor again (compute.ts:187).
- A Kafka edge into a topic is clamped by the usable partitions times the
  per-partition throughput. When the producer is a service, it is also
  clamped by the producer's concurrency times the per-partition throughput
  (compute.ts:433-434).
- An API endpoint's egress is computed from its accumulated `incoming` rate
  (compute.ts:349). That rate is its seed rate plus whatever edges feed it,
  not its target rate alone.
- Nothing is ever added to the global warning list (compute.ts:72, 447).
- A topic's upstream constraint never fires (compute.ts:333): its condition
  makes the producer bound the strict minimum, so the chosen limiter is
  always the producer bound. `Evaluate.TopicStat` computes the condition as
  written and proves the result is absent.
- p95 always uses the default multiplier 2, whatever the `config` argument
  says. The queueing threshold does come from `config`.
- Join tags other than `none`, `all`, `kOfN` and `window` fall through every
  branch. The join rate stays at the node's ingress and all consumption is
  0.
- A service's utilization warnings depend only on its utilization
  (compute.ts:238-240), not on whether it has a backlog.

## Model

| member | source | states |
|---|---|---|
| Util.Clamp01 | src/engine/compute.ts:26 | the clamp lies in [0, 1] and leaves a value already in [0, 1] unchanged |
| Util.Fraction | src/engine/compute.ts:293 | a rate times a ratio (delivered flow times the acceptance ratio, and a datastore's ingress times its capacity share at compute.ts:382): a ratio of 1 keeps the rate; a ratio in [0, 1] gives a rate in [0, rate] |
| Types.FindNode | src/graph/validators.ts:8-9 | `find` by id is absent exactly when no node has the id; otherwise it is a node of the list with that id |
| Types.FirstNodeIndex | src/graph/store.ts:102 | the index of the first node with the id, or the length when there is none; no earlier node has the id |
| Types.FindNodeUnique | src/engine/compute.ts:122 | with unique ids, finding a node's id returns that node |
| Digraph.TargetsSound | src/graph/validators.ts:30-32 | every successor listed for `u` comes from an edge `u -> v` |
| Digraph.TargetsComplete | src/graph/validators.ts:32 | every edge leaving `u` contributes its target to `u`'s list |
| Digraph.ArcIff | src/graph/validators.ts:30-32 | `v` is a successor of `u` exactly when some edge `u -> v` starts at an existing node (edges from missing nodes are dropped by `?.push`) |
| Digraph.CycleFromStack | src/graph/validators.ts:40 | reaching a node still on the grey path closes a cycle |
| Digraph.StuckImpliesCycle | src/engine/compute.ts:105-108 | a non-empty set in which every node has a predecessor inside the set contains a cycle |
| Digraph.WalkDescends | src/graph/validators.ts:44-45 | along any walk from a finished node, finishing ranks strictly drop |
| Digraph.RankedAcyclic | src/graph/validators.ts:44-46 | finishing ranks covering every node with successors rule out every cycle |
| EngineHelpers.ServiceEffectiveTimeMs | src/engine/compute.ts:24-29 | the time is non-negative and lies between the floored service time and the cache-hit time; it is the floored service time at hit rate 0 and the hit time at hit rate 1 |
| EngineHelpers.QueuePenaltyMs | src/engine/compute.ts:37-40 | zero at or below the threshold; non-negative for non-negative utilization and base time |
| EngineHelpers.QueuePenaltyMonotone | src/engine/compute.ts:37-40 | with a non-negative threshold and base time, the delay never decreases as utilization grows |
| EngineHelpers.EffectivePartitions | src/engine/compute.ts:42-46 | at least 1; exactly 1 for skew at least 1; the partition count itself for skew 0 or absent and an integer count of at least 1; never more than a count of at least 1 |
| EngineHelpers.SkewFactor | src/engine/compute.ts:43-44 | `1 - skew²` with skew clamped, so in [0, 1]; 0 at full skew and 1 at none |
| EngineHelpers.EffectivePartitionsAntitone | src/engine/compute.ts:42-46 | more key skew never yields more usable partitions |
| EngineHelpers.TopicCapacityRps | src/engine/compute.ts:48-50 | non-negative for non-negative dials, and at least one partition's throughput when there is at least one partition |
| EngineHelpers.DatastoreCostedIngress | src/engine/compute.ts:54-67 | the accumulator loop returns the reads, writes, other and cost units of `Costed`: writes cost the write amplification (4 when unset), reads and other cost 1 |
| EngineHelpers.CostedPartition | src/engine/compute.ts:57-64 | reads + writes + other equals the total inbound rate: every stream lands in exactly one accumulator |
| EngineHelpers.OtherIsNeitherReadNorWrite | src/engine/compute.ts:59-63 | streams without a read or write hint (bulk, stream, none) all count as `other` |
| EngineHelpers.AllWriteSums | src/engine/compute.ts:59-64 | an all-write input puts its whole rate in `writes` and nothing in the other accumulators |
| EngineHelpers.AllWriteCost | src/engine/compute.ts:54-67 | an all-write input costs writes × write amplification, and halving the amplification halves the cost |
| Order.InCountZero | src/engine/compute.ts:99-103 | the remaining in-degree of `v` is 0 exactly when every edge into `v` starts at an emitted node |
| Order.InCountEmit | src/engine/compute.ts:99-103 | emitting `u` lowers the in-degree of `v` by the number of arcs `u -> v` |
| Order.BuildDegrees | src/engine/compute.ts:81-90 | `outByNode` is the adjacency of the graph, and `inDegree` maps every node to its number of inbound edges |
| Order.EmptyDegrees | src/engine/compute.ts:83-86 | every node starts with an empty successor list and in-degree 0 |
| Order.CountEdges | src/engine/compute.ts:87-90 | after the edge loop each successor list holds the targets of the node's edges in order, and each in-degree counts the edges in |
| Order.EdgeStep | src/engine/compute.ts:88-89 | counting one more edge extends one successor list and one in-degree, keeping both equal to the counts over the edges seen so far |
| Order.InitialQueue | src/engine/compute.ts:93-94 | the queue is `ZeroIn`, the ids of in-degree 0 in node order; it holds, without repetition, exactly the nodes of in-degree 0 |
| Order.ZeroInIds | src/engine/compute.ts:93-94 | with unique node ids, the in-degree-0 list has no repetition and holds exactly the nodes of in-degree 0 |
| Order.ForwardAppend | src/engine/compute.ts:97-98 | emitting a node all of whose inbound edges start at emitted nodes keeps every edge pointing forward |
| Order.DecrementStep | src/engine/compute.ts:100-102 | decrementing a positive in-degree and queueing the node when it hits 0 keeps the queue bookkeeping |
| Order.EmitStep | src/engine/compute.ts:97-98 | the queue head has not been emitted before, and moving it to the order keeps the bookkeeping |
| Order.EmitDegrees | src/engine/compute.ts:99-103 | the in-degrees after emitting `u` are the old ones minus `u`'s arcs, and `u`'s successors are nodes |
| Order.LeftoverCycle | src/engine/compute.ts:105-108 | when every node left out of the order still has an inbound edge from a node left out, and some node is left out, the graph has a cycle |
| Order.Kahn | src/engine/compute.ts:95-104 | Kahn's loop emits exactly `KahnFrom`: the queue head is taken from the front, and released successors join at the back; what it emits is distinct nodes with every edge pointing forward; if it misses a node, the graph has a cycle |
| Order.Release | src/engine/compute.ts:99-103 | the inner loop computes `Released`: the successors in list order each lose one unit of in-degree, and one joins the back of the queue when it reaches 0; the arcs come off the in-degrees and the queue's prefix is kept |
| Order.ReleasedFacts | src/engine/compute.ts:99-103 | releasing a successor list keeps the queue bookkeeping, brings each in-degree down by the node's arcs and only appends to the queue |
| Order.MissingIds | src/engine/compute.ts:105-108 | the list of missing ids holds every node id not yet in the order exactly once, and nothing else |
| Order.AppendRemaining | src/engine/compute.ts:105-108 | the fallback appends exactly `Missing`: the node ids not yet in the order, in node order, each once at its first occurrence; the existing order is kept in front |
| Order.KahnOrder | src/engine/compute.ts:81-104 | degrees, initial queue and Kahn's loop together emit `KahnFrom` over the graph's adjacency, in-degrees and in-degree-0 ids in node order; distinct, forward, and complete unless the graph has a cycle |
| Order.TopologicalOrder | src/engine/compute.ts:81-108 | the order is `Schedule(g)`: Kahn's first-in first-out order, then the missing ids in node order. It lists every node id exactly once; in an acyclic graph every edge's source precedes its target |
| Order.EdgesFromMembers | src/engine/compute.ts:113-116 | the edges indexed under `u` are exactly the edges leaving `u` |
| Order.EdgesToMembers | src/engine/compute.ts:113-117 | the edges indexed under `v` are exactly the edges entering `v` |
| Order.FromStep | src/engine/compute.ts:114-116 | appending the next edge under its source keeps the index equal to the edges seen so far |
| Order.ToStep | src/engine/compute.ts:115-117 | appending the next edge under its target keeps the index equal to the edges seen so far |
| Order.IndexEdges | src/engine/compute.ts:111-118 | `edgesByFrom.get(u) ?? []` is the edges leaving `u` in edge order, and `edgesByTo.get(v) ?? []` the edges entering `v` |
| Join.EffMult | src/engine/compute.ts:136 | an unset efficiency leaves the rate unchanged; a non-negative rate is scaled into [0, rate] |
| Join.SortDesc | src/engine/compute.ts:150-152 | the sort keeps the length and the elements |
| Join.SortDescSorted | src/engine/compute.ts:150-152 | the sort orders by descending rate, ties in inbound-edge order (a stable sort), without repetitions |
| Join.RankingFacts | src/engine/compute.ts:150-152 | the ranking is a permutation of the indexed streams, sorted descending and stable |
| Join.ClampK | src/engine/compute.ts:149 | `k` is at least 1, at most N when N ≥ 1, and the required count when that is already in [1, N] |
| Join.MinOf | src/engine/compute.ts:143 | the minimum is at most every stream's rate and equals one of them |
| Join.TopK | src/engine/compute.ts:157 | the active list has `k` entries, each a valid stream index |
| Join.TopKIsTop | src/engine/compute.ts:150-157 | the `k` active streams are distinct; every active stream's rate is at least every inactive stream's rate and at least the k-th rate; the k-th rate is the last active stream's rate |
| Join.KOfNBound | src/engine/compute.ts:153-155 | `min(kth, sumAll / k)` is at most the k-th rate, and `k` streams at this rate take no more than the streams carry in total |
| Join.KOfNBoundNonNegative | src/engine/compute.ts:153-155 | non-negative streams give a non-negative bound |
| Join.SelectiveConsumption | src/engine/compute.ts:158 | one entry per stream, non-negative for a non-negative rate |
| Join.SelectiveOutcome | src/engine/compute.ts:157-158 | a k-of-N or window outcome: the given rate, the top `k` streams active, only active streams consumed from, each at the join rate |
| Join.KOfNRate | src/engine/compute.ts:153-156 | for non-negative streams the k-of-N join rate lies in [0, bound] |
| Join.WindowRate | src/engine/compute.ts:165-170 | for non-negative streams the window join rate is non-negative |
| Join.EvaluateJoin | src/engine/compute.ts:131-174 | no join or no inbound stream: the sum of the flows, each consumed fully; an unknown join tag: the node's ingress, nothing consumed, no active stream; non-negative streams and ingress give a non-negative rate and consumption |
| Join.JoinAllIsMin | src/engine/compute.ts:142-147 | an all-streams join processes the minimum inbound rate × the clamped efficiency, consumes that much from every stream and lists as many active streams as there are streams |
| Join.KOfNJoin | src/engine/compute.ts:148-159 | k-of-N join: `k` is the required count clamped to [1, N]; the rate is `min(kth, sum/k)` × the efficiency; the top-k streams are the active ones, and only they are consumed from, each at the join rate |
| Join.WindowJoin | src/engine/compute.ts:160-173 | window join: as k-of-N, with the bound also multiplied by the match rate clamped to [0, 1] before the efficiency |
| Join.EqualStreamsKth | src/engine/compute.ts:150-153 | when all streams carry the same rate, the k-th highest rate is that rate for every k |
| Join.EqualStreamsBound | src/engine/compute.ts:153-155 | when all N streams carry the same rate, the k-of-N bound for k = N is that rate |
| Join.QuorumOfEqualStreams | src/engine/compute.ts:142-159 | with N equal streams, a k-of-N join with k = N processes the common rate × efficiency, as the all-streams join does |
| Evaluate.Scale | src/engine/compute.ts:219 | an absent multiplier leaves the value unchanged; non-negative inputs give a non-negative result |
| Evaluate.CapAt | src/engine/compute.ts:218 | `min(x, cap ?? Infinity)` is at most `x`, at most a present cap, and equal to one of them |
| Evaluate.Backlog | src/engine/compute.ts:220 | the backlog is reported exactly when ingress exceeds capacity, as the positive difference; served plus backlog is the ingress |
| Evaluate.KafkaOnly | src/engine/compute.ts:178 | the filter keeps exactly the Kafka inbound edges |
| Evaluate.SumAvailablePartitions | src/engine/compute.ts:179-183 | the loop sums the partitions of the topics the Kafka inputs start at |
| Evaluate.MinConsumerCap | src/engine/compute.ts:196-206 | the loop computes `ConsumerCap`, the running minimum of the topic consumer bounds |
| Evaluate.ConsumerCapAbsent | src/engine/compute.ts:195-207 | the consumer cap stays at Infinity exactly when no Kafka input starts at a topic |
| Evaluate.ConsumerCapBelow | src/engine/compute.ts:196-206 | the consumer cap is at most `min(partitions, concurrency) × perPartitionThroughput` of every topic consumed |
| Evaluate.ConsumerCapAttained | src/engine/compute.ts:196-206 | a finite consumer cap equals the bound of one of the topics consumed |
| Evaluate.ConsumerCapNonNegative | src/engine/compute.ts:196-206 | non-negative dials give a non-negative consumer cap |
| Evaluate.LargestPartitions | src/engine/compute.ts:222-229 | the loop computes the largest partition count among the consumed topics, 0 when none |
| Evaluate.PartitionsBounds | src/engine/compute.ts:179-229 | with non-negative partition counts, 0 ≤ the largest count ≤ the summed available partitions |
| Evaluate.Workers | src/engine/compute.ts:184 | the concurrency without Kafka inputs; with them, the smaller of concurrency and available partitions |
| Evaluate.ServiceCapacity | src/engine/compute.ts:185-209 | capacity is at most each present bound (fixed cap, in-flight limit, consumer cap) and non-negative for non-negative dials |
| Evaluate.UtilizationWarnings | src/engine/compute.ts:237-240 | at most one warning: capacity exceeded for ρ ≥ 1, high for 0.85 ≤ ρ < 1, elevated for 0.7 ≤ ρ < 0.85, none below 0.7, each an if-and-only-if |
| Evaluate.JoinLimiter | src/engine/compute.ts:243-251 | a join limiter is never the compute limiter |
| Evaluate.WastedConcurrency | src/engine/compute.ts:230-236 | reported exactly when some topic is consumed and the concurrency exceeds max partitions × clamped efficiency, and then positive |
| Evaluate.Served | src/engine/compute.ts:217-218 | egress before the multiplier is at most the ingress, the capacity and the fixed cap, equals one of them, and is non-negative for non-negative inputs |
| Evaluate.ServiceStat | src/engine/compute.ts:211-281 | ingress is the join rate; utilization is ingress / max(capacity, ε); egress is min(ingress, capacity, fixed cap) × throughput multiplier; backlog is max(0, ingress − capacity) when positive; without penalties, egress + backlog = ingress; warnings are the utilization tier; the limiter is compute exactly when capacity ≤ ingress + ε, otherwise the join's; p95 = 2 × p50 |
| Evaluate.SumConsumerCaps | src/engine/compute.ts:306-314 | the loop sums the consumer bounds of the downstream services |
| Evaluate.ConsumerCapTotalNonNegative | src/engine/compute.ts:307-314 | non-negative dials give a non-negative consumer total |
| Evaluate.ConsumerLimit | src/engine/compute.ts:315 | `consumerCapTotal || Infinity`: a total of 0 bounds nothing, any other total bounds at its value |
| Evaluate.TopicCapacity | src/engine/compute.ts:302-304 | at most a present fixed cap, and non-negative for non-negative dials |
| Evaluate.TopicLimiter | src/engine/compute.ts:319-330 | the first minimal bound in the order producer, partitions, consumer, with ties going to the producer; each case an if-and-only-if |
| Evaluate.TopicStat | src/engine/compute.ts:300-347 | egress is min(ingress, capacity, consumer limit, fixed cap) × multiplier; consumer lag is ingress − egress exactly when positive; the limiter is `TopicLimiter`; the upstream constraint is always absent |
| Evaluate.EntryRate | src/engine/compute.ts:78 | `targetQps × (burstFactor ?? 1)`: the target rate when there is no burst factor; non-negative for non-negative dials |
| Evaluate.ApiStat | src/engine/compute.ts:348-355 | egress is the ingress capped and scaled; p50 is the declared p50 with penalties; p95 is the declared p95, else 2 × p50; no limiter, backlog or warning |
| Evaluate.PoolClamp | src/engine/compute.ts:364-366 | absent exactly when neither pool size nor max concurrency is set; otherwise at least 1 |
| Evaluate.DatastoreCapacityOf | src/engine/compute.ts:363-369 | at most a present fixed cap, at most `maxQps` without a capacity multiplier, and non-negative for non-negative dials |
| Evaluate.CapacityShare | src/engine/compute.ts:381 | at most 1, non-negative for a non-negative capacity, and exactly 1 when the capacity covers the cost |
| Evaluate.DatastoreBaseP50 | src/engine/compute.ts:371-376 | without writes or without lock contention, the base p50 is p95 / 1.5 |
| Evaluate.DatastoreStat | src/engine/compute.ts:356-397 | utilization is cost units / max(capacity, ε); backlog is cost − capacity when positive; egress is the ingress × min(1, capacity / cost), capped and scaled, and at most the ingress when no multiplier applies; the limiter is datastore capacity exactly when the share is below 1; p95 = 2 × p50 |
| Evaluate.Acceptance | src/engine/compute.ts:404 | the acceptance ratio is 1 for an idle node, at most 1, non-negative for a non-negative egress, and egress / ingress when that is in range |
| Flow.AnnotateEdge | src/engine/compute.ts:291-297 | flow, latency and the producer flag are kept; for a non-negative flow and desired rate and an acceptance ratio in [0, 1], delivered lies in [0, min(flow, desired)] and blocked grows by exactly flow − delivered; full acceptance of a flow that is fully wanted delivers all of it; a warning carrying the blocked rate is appended exactly when blocked grows; consistency is kept |
| Flow.AnnotateAllFacts | src/engine/compute.ts:400-414 | annotation adds no edge statistics, keeps every flow, leaves edges outside the inbound list unchanged and never lowers a blocked rate |
| Flow.AnnotateAllSane | src/engine/compute.ts:283-299 | with an acceptance ratio in [0, 1] and non-negative consumption, consistent statistics (0 ≤ delivered ≤ flow, nothing negative) stay consistent |
| Flow.TotalWeight | src/engine/compute.ts:421 | the weight total is never 0, and is the weight sum whenever that is non-zero |
| Flow.ProducerBound | src/engine/compute.ts:426-436 | a producer bound applies exactly to a Kafka edge into an existing topic |
| Flow.ProducerBoundLimits | src/engine/compute.ts:430-434 | the producer bound is at most usable partitions × per-partition throughput, at most the producing service's concurrency × per-partition throughput when the producer is a service, and non-negative for non-negative dials |
| Flow.EdgeFlow | src/engine/compute.ts:423-437 | the edge carries at most its share; exactly its share without a producer bound; at most the producer bound with one; and always either its share or the producer bound |
| Flow.FreshStat | src/engine/compute.ts:440-443 | a newly fed edge delivers all its flow, blocks nothing, has no warning, has transport latency 0, and is producer-limited exactly when flow + ε < its pre-clamp share |
| Flow.DistributeIncoming | src/engine/compute.ts:439 | every node's `incoming` grows by exactly the flow the outbound edges carry into it |
| Flow.DistributeTargets | src/engine/compute.ts:422-439 | the distribution adds `incoming` entries for exactly the targets of the outbound edges |
| Flow.DistributeEdgeIds | src/engine/compute.ts:443 | the distribution records statistics for exactly the outbound edges |
| Flow.DistributeKeepsOthers | src/engine/compute.ts:422-444 | the statistics of an edge that is not outbound are left as they were |
| Flow.DistributeSane | src/engine/compute.ts:422-444 | with non-negative egress, weights and dials, every edge statistic stays consistent |
| Flow.DistributeNonNegative | src/engine/compute.ts:422-444 | with non-negative egress, weights and dials, every `incoming` rate stays non-negative |
| Flow.EdgeFlowNonNegative | src/engine/compute.ts:423-437 | with non-negative egress, weights and dials, every edge flow is non-negative |
| Flow.ShareSumScales | src/engine/compute.ts:421-423 | the split shares add up to egress × weight sum / total weight |
| Flow.SplitConservesEgress | src/engine/compute.ts:421-423 | when the weights do not sum to 0, a split fan-out hands out exactly the egress |
| Engine.SeedRate | src/engine/compute.ts:78 | only API endpoints seed a rate, non-negative for non-negative dials |
| Engine.SeedSumUnique | src/engine/compute.ts:76-78 | with unique ids, a node's seeded ingress is its own entry rate |
| Engine.SeedSumAbsent | src/engine/compute.ts:76-78 | an id no node carries is seeded 0 |
| Engine.SeedSumNonNegative | src/engine/compute.ts:76-78 | non-negative dials give non-negative seeds |
| Engine.SeedIncoming | src/engine/compute.ts:75-78 | the loops give every node id an entry, equal to the entry rates of the nodes with that id |
| Engine.InboundRates | src/engine/compute.ts:127-129 | one rate per inbound edge, non-negative when the edge statistics are consistent |
| Engine.DatastoreInflows | src/engine/compute.ts:358-360 | one stream per inbound edge, carrying that edge's operation hint |
| Engine.EvalNode | src/engine/compute.ts:121-398 | a node reports a bottleneck exactly when it has a backlog; the capacity-exceeded reason comes only from services and the datastore-limit reason only from datastores; only services produce a consumption list, with one entry per inbound edge |
| Engine.ServiceEvalNonNegative | src/engine/compute.ts:125-299 | with non-negative dials, ingress and consistent edges, a service's egress and consumption are non-negative |
| Engine.EvalNodeNonNegative | src/engine/compute.ts:121-398 | with non-negative dials, ingress and consistent edges, every node's egress and consumption are non-negative and its acceptance ratio lies in [0, 1] |
| Engine.Scenario.constructor | src/engine/compute.ts:70-78 | a run starts from the seeded `incoming` with no statistics and no bottlenecks |
| Engine.Scenario.Annotate | src/engine/compute.ts:400-414 | the in-place loop leaves `edgeStats` equal to `AnnotateAll` of the old statistics and changes nothing else |
| Engine.Scenario.Distribute | src/engine/compute.ts:416-444 | the in-place loop leaves `incoming` and `edgeStats` equal to `DistributeAll` of the old values, and leaves the node statistics and bottlenecks alone |
| Engine.Scenario.EvaluateService | src/engine/compute.ts:125-281 | the service evaluation with the engine's loops equals `ServiceEval` |
| Engine.Scenario.EvaluateNode | src/engine/compute.ts:121-398 | the node evaluation with the engine's loops equals `EvalNode` |
| Engine.Scenario.Step | src/engine/compute.ts:121-444 | one iteration leaves the accumulators as `NodeStep` says: the node's evaluation recorded, its bottleneck pushed if any, its inbound edges annotated, then its egress distributed |
| Engine.Scenario.Run | src/engine/compute.ts:120-445 | given the edge indexes of the graph, the loop leaves the accumulators equal to `RunNodes` over the order: each node evaluated, in turn, against exactly its own inbound edges and feeding exactly its own outbound edges |
| Engine.RunNodesStep | src/engine/compute.ts:120-445 | running one more id of the order is one more `NodeStep` for that node with its own inbound and outbound edges |
| Engine.RunNodesStats | src/engine/compute.ts:121-123 | one more id records that node's evaluation, against the rate and edge statistics reached so far, and leaves the other node statistics alone |
| Engine.RunNodesNodeStat | src/engine/compute.ts:120-445 | in a repetition-free order, every node ends with its own evaluation, made against its own inbound edges and the rate that had reached it at its turn; no later node overwrites it |
| Engine.RunNodesKeeps | src/engine/compute.ts:120-445 | after the given ids, each of them has statistics, exactly the edges they feed have statistics, bottlenecks name exactly the backlogged nodes, and non-negative graphs keep every rate non-negative |
| Engine.DistributeStep | src/engine/compute.ts:422-444 | distributing one more outbound edge feeds that edge on top of the previous distribution |
| Engine.StepKeepsInvariant | src/engine/compute.ts:120-445 | one step extends the evaluated set by the node, the fed edges by its outbound edges, and keeps bottlenecks equal to the backlogged nodes |
| Engine.BottlenecksStep | src/engine/compute.ts:241 | pushing a bottleneck exactly for a backlogged node keeps the bottleneck ids equal to the backlogged nodes |
| Engine.StepKeepsNonNegative | src/engine/compute.ts:120-445 | a step with non-negative egress and consumption and an acceptance ratio in [0, 1] keeps every rate non-negative and every edge consistent |
| Engine.AllEdgeIds | src/engine/compute.ts:121-443 | once every node is done, every edge has been fed |
| Engine.Seeded | src/engine/compute.ts:70-78 | a run starts with an `incoming` entry for every node id, equal to that node's entry rate when ids are unique |
| Engine.ComputeScenario | src/engine/compute.ts:69-448 | the result is the main loop run from the seeded accumulators over `Schedule(g)`, the order Kahn's algorithm and the fallback produce, which is an evaluation order (every node once, sources before targets when acyclic); every node gets statistics; every edge gets statistics; bottlenecks name exactly the nodes with a backlog; the global warning list is empty; for non-negative graphs every egress is non-negative and every edge consistent (0 ≤ delivered ≤ flow) |
| Engine.OutcomeFacts | src/engine/compute.ts:120-448 | any run over an evaluation order reports statistics for every node and edge, bottlenecks exactly for the backlogged nodes and, for non-negative graphs, non-negative egress and consistent edges |
| Validators.EdgeWarningsIff | src/graph/validators.ts:7-17 | an edge yields one warning when it is a Kafka edge between existing nodes that are not a service/topic pair, and none otherwise (a missing endpoint yields none) |
| Validators.ProtocolWarningsSound | src/graph/validators.ts:7-17 | every protocol warning reports a misrouted edge with its endpoints' types |
| Validators.ProtocolWarningsComplete | src/graph/validators.ts:7-17 | every misrouted edge is reported |
| Validators.ProtocolWarningsLength | src/graph/validators.ts:7-17 | at most one protocol warning per edge |
| Validators.ProtocolStep | src/graph/validators.ts:7-16 | one more edge appends exactly its own warnings |
| Validators.CheckProtocols | src/graph/validators.ts:7-17 | the loop produces the protocol warnings of the edges, in edge order |
| Validators.TopicWarningsKinds | src/graph/validators.ts:20-27 | topic warnings are only about partitions or throughput |
| Validators.TopicPartitionsSound | src/graph/validators.ts:22-23 | a partitions warning names a topic whose partition count is not a positive integer |
| Validators.TopicPartitionsComplete | src/graph/validators.ts:22-23 | every topic whose partition count is not a positive integer is named |
| Validators.TopicThroughputSound | src/graph/validators.ts:24-25 | a throughput warning names a topic whose per-partition throughput is not positive |
| Validators.TopicThroughputComplete | src/graph/validators.ts:24-25 | every topic whose per-partition throughput is not positive is named |
| Validators.CheckTopics | src/graph/validators.ts:20-27 | the loop produces the topic warnings, in node order, partitions before throughput |
| Validators.BuildAdjacency | src/graph/validators.ts:30-32 | the adjacency map has an entry per node id listing the targets of the edges from it, in order |
| Validators.AdjacencyStep | src/graph/validators.ts:32 | recording one more edge keeps each list equal to the targets of the edges seen so far |
| Validators.FinishNode | src/graph/validators.ts:44-45 | a node whose successors are all finished may be finished next with the next rank |
| Validators.ExtendWalk | src/graph/validators.ts:37-41 | pushing a successor of the path's last node keeps the grey path a walk |
| Validators.Dfs | src/graph/validators.ts:36-47 | `true` only when the graph has a cycle; on `false`, the node joins the finished set, which keeps every node finished before, stays apart from the grey path and has finishing ranks that drop along every arc (so everything reachable is finished) |
| Validators.Explore | src/graph/validators.ts:38-43 | one successor is skipped when visited, closes a cycle when on the grey path, and is otherwise searched, with the same guarantees as `Dfs` |
| Validators.DetectCycle | src/graph/validators.ts:49-54 | the driver loop finds a cycle exactly when the adjacency graph has one |
| Validators.ValidateGraph | src/graph/validators.ts:3-57 | the warnings are the protocol warnings, then the topic warnings, then the cycle warning exactly when there is a cycle |
| Validators.CycleWarningCount | src/graph/validators.ts:49-54 | the cycle warning appears once when there is a cycle and never otherwise |
| Validators.SelfLoopIsCycle | src/graph/validators.ts:30-54 | an edge from an existing node to itself is a cycle |
| Validators.EdgeRankingAcyclic | src/graph/validators.ts:30-54 | a ranking of the nodes that drops along every edge rules out a cycle |
| Validators.NoArcsNoCycle | src/graph/validators.ts:32 | a graph whose edges all start at missing nodes has no cycle |
| Validators.EdgeById | src/graph/validators.ts:59-61 | none exactly when no edge has the id; otherwise the first edge with that id |
| Store.KeepNodes | src/graph/store.ts:132 | the filter keeps exactly the nodes with another id, and is the identity when no node has the id |
| Store.KeepNodesIds | src/graph/store.ts:132 | the surviving ids are the old ids minus the deleted one |
| Store.KeepNodesUnique | src/graph/store.ts:132 | filtering keeps ids distinct |
| Store.KeepNodesAppend | src/graph/store.ts:132 | filtering a concatenation concatenates the filtered parts, so the surviving nodes keep their order |
| Store.KeepEdgesAway | src/graph/store.ts:133 | the filter keeps exactly the edges not touching the node, and is the identity when none does |
| Store.KeepEdgesAwayAppend | src/graph/store.ts:133 | the surviving edges keep their order |
| Store.KeepEdges | src/graph/store.ts:147 | the filter keeps exactly the edges with another id, and is the identity when none has it |
| Store.KeepEdgesAppend | src/graph/store.ts:147 | the surviving edges keep their order |
| Store.RemoveNodeFacts | src/graph/store.ts:132-133 | after deleteNode no node carries the id and no edge touches it; everything else stays |
| Store.RemoveNodeWellFormed | src/graph/store.ts:132-133 | deleting a node leaves no dangling edge and keeps ids unique |
| Store.RemoveNodeIdempotent | src/graph/store.ts:132-133 | deleting the same node twice is deleting it once |
| Store.RemoveEdgeWellFormed | src/graph/store.ts:147 | deleting an edge leaves no dangling edge |
| Store.AddNodeUnique | src/graph/store.ts:74 | appending a node keeps ids unique exactly when its id is new |
| Store.ConnectEdgeWellFormed | src/graph/store.ts:88 | appending an edge keeps every edge attached exactly when both its endpoints exist |
| Store.ReviseNode | src/graph/store.ts:102-105 | only the first node with the id is replaced by the updater's result; an unknown id leaves the graph unchanged |
| Store.ReviseEdge | src/graph/store.ts:118-119 | only the first edge with the id is replaced; an unknown id leaves the graph unchanged |
| Store.Timeline | src/graph/store.ts:157-179 | the timeline of past, current and redoable graphs has one entry per stacked graph plus the current one, which sits right after the history |
| Store.Edit | src/graph/store.ts:71-73 | an edit's timeline is the old history, the replaced graph, then the new graph: the redo stack is gone |
| Store.UndoStep | src/graph/store.ts:157-167 | with an empty history nothing changes; otherwise the graph becomes the history top; the timeline and the selection are kept |
| Store.RedoStep | src/graph/store.ts:169-179 | with an empty future nothing changes; otherwise the graph becomes the future top; the timeline and the selection are kept |
| Store.UndoRedo | src/graph/store.ts:157-179 | redo right after an undo restores graph, history and future when the history was non-empty |
| Store.RedoUndo | src/graph/store.ts:157-179 | undo right after a redo restores the state when the future was non-empty |
| Store.EditUndo | src/graph/store.ts:68-167 | undo right after an edit brings back the replaced graph and offers the edited graph for redo |
| Store.UndoStepBack | src/graph/store.ts:157-167 | one undo keeps the timeline, shortens a non-empty history by one, and lands on the timeline entry at the new history length |
| Store.UndoTimesSteps | src/graph/store.ts:157-167 | `k` undos keep the timeline and shorten the history by `k`, down to empty |
| Store.UndoTimesWalksBack | src/graph/store.ts:157-167 | `k` undos walk `k` steps back along the timeline and stop at its start |
| Store.GraphStore.constructor | src/graph/store.ts:59-66 | a fresh store holds the initial graph, empty stacks and no selection |
| Store.GraphStore.Record | src/graph/store.ts:71-73 | the replaced graph is pushed onto history and future is emptied |
| Store.GraphStore.AddNode | src/graph/store.ts:68-80 | an edit appending the node at the end, selecting its id |
| Store.GraphStore.ConnectEdge | src/graph/store.ts:82-94 | an edit appending the edge at the end, selecting its id |
| Store.GraphStore.UpdateNode | src/graph/store.ts:96-110 | an edit applying the updater to the first node with the id; history is pushed even for an unknown id |
| Store.GraphStore.UpdateEdge | src/graph/store.ts:112-124 | an edit applying the updater to the first edge with the id; history is pushed even for an unknown id |
| Store.GraphStore.DeleteNode | src/graph/store.ts:126-139 | an edit removing the node and its edges; the selection is cleared only when it was that id |
| Store.GraphStore.DeleteEdge | src/graph/store.ts:141-153 | an edit removing the edges with the id; the selection is cleared only when it was that id |
| Store.GraphStore.Select | src/graph/store.ts:155 | only the selection changes |
| Store.GraphStore.Undo | src/graph/store.ts:157-167 | performs `UndoStep` on the store's state |
| Store.GraphStore.Redo | src/graph/store.ts:169-179 | performs `RedoStep` on the store's state |
| Store.GraphStore.SetGraph | src/graph/store.ts:181-192 | an edit replacing the whole graph, keeping the selection |
| Fixtures.FanInJoinRate | src/engine/compute.ts:148-159 | the joiner's part of the fan-in run: the three 300 rps streams the run feeds it, joined 3 of 3, give a join rate of 300 |
| Fixtures.FanInQuorumRate | src/engine/compute.ts:148-159 | the same streams into a 2-of-3 join give 300 (the second-highest rate, below the fair share 450), not 900 |
| Fixtures.FanInJoinCapacity | src/utils/seeds.ts:8-14 | the joiner's capacity is 4 × 1 × 1000 / 20 = 200 rps |
| Fixtures.FanInJoinBacklog | src/engine/compute.ts:184-246 | the joiner's part of the fan-in run: at the 300 rps join rate against 200 rps of capacity it serves 200, reports a backlog of 100, the compute limiter and a capacity-exceeded warning |
| Fixtures.ApiStats | src/engine/compute.ts:121 | the API endpoints run so far each hold one `ApiOut` statistic, and no other node does |
| Fixtures.ChainAndLoopSchedule | src/engine/compute.ts:92-108 | with an edge x -> z, an isolated y and a two-node cycle p, q, the order is x, y, z, p, q: z, released by x, waits behind y in the queue, and the cycle members follow in node order |
| Fixtures.FanInOrder | src/engine/compute.ts:80-118 | every evaluation order of the fan-in graph runs the three API endpoints first and the joiner last |
| Fixtures.ApisRun | src/utils/seeds.ts:5-19 | API endpoints seeded at 300 rps, each with one plain edge into the joiner, run in any order, each report 300 rps in and out and feed 300 rps into the joiner along their edge |
| Fixtures.JoinerEval | src/utils/seeds.ts:8-20 | with 300 rps on each of its three inbound edges, the joiner's evaluation is the 3-of-3 join at 300 rps against 200 rps of capacity, and it reports itself a bottleneck |
| Fixtures.FanInPrefix | src/engine/compute.ts:120-445 | after the first three steps of any evaluation order, 900 rps wait at the joiner, each edge carries 300 rps and each endpoint reports `ApiOut` |
| Fixtures.JoinerRuns | src/engine/compute.ts:121-414 | the joiner's step after the three endpoints records its join statistics, makes it the one bottleneck and keeps every edge's flow |
| Fixtures.FanInRun | src/engine/compute.ts:120-445 | the main loop over any evaluation order of the fan-in graph ends with the endpoints at 300 rps, every edge at 300 rps, the joiner's statistics and the joiner as the one bottleneck |
| Fixtures.FanInOutcome | src/engine/compute.ts:448 | that end state is reported as: endpoints 300 rps in and out with no backlog, the joiner serving 200 with 100 of backlog, the compute limiter and a capacity warning, every edge at 300 rps, one bottleneck, no global warning |
| Fixtures.FanInWellFormed | src/utils/seeds.ts:3-21 | the fan-in graph has unique node ids and every edge joins two of its nodes |
| Fixtures.FanInJoinScenario | src/utils/seeds.ts:3-21 | `computeScenario` on the fan-in graph: each API endpoint reports 300 rps in and out, every edge carries 300 rps, the joiner serves 200 rps with 100 rps of backlog, the compute limiter and a capacity warning, and is the one bottleneck; no global warning |
| Fixtures.KafkaETLPartitions | src/utils/seeds.ts:26-31 | with key skew 0.2, 12 partitions leave 11 usable |
| Fixtures.FanInJoinValidates | src/utils/seeds.ts:3-21 | the fan-in graph validates without a warning |
| Fixtures.KafkaETLValidates | src/utils/seeds.ts:23-35 | the Kafka pipeline validates without a warning |
| Fixtures.KafkaETLProtocols | src/utils/seeds.ts:30-34 | both Kafka edges of the pipeline join a service and a topic |
| Fixtures.WellRouted | src/graph/validators.ts:11-16 | a non-Kafka edge, or one between a service and a topic, is not misrouted |
| Fixtures.NoProtocolWarnings | src/graph/validators.ts:7-17 | no misrouted edge means no protocol warning |
| Fixtures.NoTopicWarnings | src/graph/validators.ts:20-27 | no topic with a bad dial means no topic warning |
| Fixtures.FanInJoinAcyclic | src/utils/seeds.ts:16-20 | the fan-in graph has no cycle |
| Fixtures.KafkaETLAcyclic | src/utils/seeds.ts:30-34 | the Kafka pipeline has no cycle |

## Left out

- Persistence: localStorage reads and writes, `safeLoadGraph` and the
  initial load (src/graph/store.ts:40-55). The initial graph is a
  constructor parameter, and `cloneGraph` is the identity on immutable
  values.
- The viewport and result actions of the store (`resetViewport`,
  `setResult`, `setViewportCenter`), and node positions and graph metadata.
  None of them touches the history.
- Text: warning messages, limiter reasons and `toFixed` formatting.
  Warnings and limiters are datatypes carrying the numbers the messages
  print.
- The `details` records of node statistics (join summary, workers,
  partitions, consumer cap, datastore and topic details). These are
  explanatory copies of values the model already computes.
- Floating point: rounding, NaN, and `Infinity` arithmetic beyond
  "absent bound". Rates are `real`.
- A non-integer `requiredStreams`. The model's `requiredStreams` is an
  integer: a fractional `k` would index `sorted[k - 1]` outside the array.
- The transport latency of an edge, which the source always sets to 0
  (compute.ts:33-35). The model records 0.
- Engine.ComputeScenario: its contract ties the result to the main loop
  (`Engine.RunNodes`) over the one order the source produces
  (`Order.Schedule`), and states the facts that hold for every graph. The
  statistics are stated per node by `Engine.RunNodesNodeStat` and worked
  out end to end for the fan-in seed graph (`Fixtures.FanInJoinScenario`).
  No closed form of every statistic as a function of the graph alone is
  stated.
- Join.WindowRate: its own contract states only non-negativity. The exact
  window rate is stated by `Join.WindowJoin`.
- Validators.Dfs: the search threads `visiting` and `visited` through
  parameters and results instead of closing over shared sets. Once a cycle
  is found the source returns with `visiting` not cleaned up; the
  validator stops at that point, so the model does not track those sets
  after a `true` result.
- The engine's web-worker hosting, the React components and the layout
  helper are outside this model.
