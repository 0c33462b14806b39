# Verified core of the metrics agent

A Dafny model of the stateful logic of the metrics agent, with proofs. It covers the quantile sketch,
the framing of datagrams, the histogram and monotonic count metrics, the autodiscovery template cache,
the forwarder with its circuit breaker, the cluster-check dispatcher with its rebalancing, the time
sampler and the tag store. `dafny verify dfyconfig.toml` checks everything.

Each component is written the same way. State that the agent updates in place is a class whose methods
keep the agent's loops and branches and are proved equal to a specification function; the laws are
lemmas about those functions, and about every run built from them. Where Go ranges over a map, the
methods visit the keys in an arbitrary order, so the results hold for every order.

| file | component |
|---|---|
| `Bins`, `Keys`, `SparseStore`, `Trim` | bins, key batches, insertion, merging and left trimming of the sparse store |
| `SketchRuns`, `Quantile`, `QuantileOrder`, `AgentSketch` | histories of a sketch, quantile queries, the order of their values, the sketch and agent objects |
| `Framing` | packet buffers and the message splitter |
| `MonotonicCount`, `Histogram` | the two metrics |
| `TemplateCache` | templates by digest, with the AD identifier index |
| `Backoff`, `Forwarder` | circuit breaker; queues, workers and retry passes |
| `Dispatcher`, `DispatcherRuns` | allocation of configurations to nodes; what whole runs bring back, invent or expire |
| `Rebalance`, `RebalanceLoop` | moving one check between nodes; the loops that do, and the dispatcher's ticks |
| `BucketTime`, `SketchMap`, `TimeSampler`, `SamplerRuns` | bucket starts; sketches by bucket; buckets, contexts and flushes; what whole runs hold and report |
| `TagStore` | tag collation and its cache |
| `GoArith`, `Reals`, `Collections`, `MapSums`, `StringOrder` | Go's truncating division, products of reals, sequences and maps, sums over maps, the order of strings |

## Where the code differs from what it says

The model follows the code. These are the places where a promised or natural property fails, each with the lemma
that shows the failure and the lemma that says exactly when the property holds.

- A higher quantile can have a smaller value. This happens at a border between two bins of one key
  (`QuantileOrder.SplitKeyDrops`), and from item to item inside a bin of a negative key, because the high end of a
  bin is its low end times gamma and so lies below it (`QuantileOrder.NegativeBinDrops`). The value is monotone over
  all ranks if and only if the ends of every bin of several items are in order and no bin's last item exceeds the low
  end of the next (`QuantileOrder.ValueMonotone`); on the configuration's scale, behind the first bin, that means no
  bin of several items with a negative key, and none whose positive key the next bin repeats
  (`QuantileOrder.MonotoneKeys`). The branch of `Quantile` that would use the maximum can never be taken, since it
  tests for an index one past the last bin.
- `calculateAvg` assigns where it should accumulate: the average is the load of the node visited last over
  the number of nodes (`Rebalance.CalculateAvg`). It is the true average for every order of visiting them if and only
  if there is one node or the total load is below the number of nodes (`RebalanceLoop.AverageRightIff`). What rebalancing
  keeps is therefore proved for any average.
- A move overwrites the destination's statistics of the check: total load is conserved if and only if the
  destination had no weight for it (`Rebalance.MoveImproves`).
- A move of a check that no configuration is linked to any more, as when it was unscheduled before its move, registers
  the zero configuration, which nobody scheduled (`DispatcherRuns.PhantomRun`, `DispatcherRuns.PhantomComes`). In every
  run that is the only configuration nobody scheduled, and only such a read brings it in
  (`DispatcherRuns.RegisteredWasScheduled`); a statistics tick adds none if every node answered, no runner marks cluster
  checks itself and identifiers are linked to configurations that list them (`RebalanceLoop.StatsTick`).
- An unscheduled configuration can come back, from a re-dispatch that had taken it or from a move that had read it
  (`DispatcherRuns.RedispatchBringsBack`, `DispatcherRuns.MoveBringsBack`). It stays out of every continuation that does
  not schedule it if and only if neither is the case and it is not the zero configuration
  (`DispatcherRuns.UnscheduledStaysOut`).
- A configuration can be on a node and dangling at once (`DispatcherRuns.BothAtOnce`); throughout a run none is, if and
  only if none is dispatched while it dangles or left dangling while it is on a node (`DispatcherRuns.ApartIff`).
- A backoff base above the maximum switches the breaker off (`Backoff.FirstFailureBlocks`,
  `Backoff.RunNeverBlocks`); with recovery reset and a base above twice the maximum a success blocks the
  endpoint (`Backoff.FirstSuccessBlocks`, `Backoff.RecoveryNegative`).
- Draws of consecutive levels are disjoint with factor 2, as the comment in the code says, and overlap
  with every greater factor below the last level (`Backoff.DrawsSeparated`, `Backoff.DrawsOverlap`).
- The retry queue limit binds only at the end of a pass: for every limit some run exceeds it
  (`Forwarder.RetryQueueExceedsLimit`). Between passes the queue respects it if and only if no more was received since
  the last pass than that pass left room for (`Forwarder.RetryQueueWithinLimit`).
- AD identifiers are hashed without a separator, so deleting one template can remove another and leave a
  zero configuration in the index (`TemplateCache.DeleteOther`); deletion is exact if and only if the argument
  names every identifier of the stored template (`TemplateCache.DelConsistent`).
- Tag boundaries are not hashed either (`TagStore.HashForgetsBoundaries`, `TagStore.BoundariesExample`). Two lists share
  the hash for every hash function if and only if both are empty, or neither is and their sorted tags written one after
  the other are the same text (`TagStore.SameHashIff`). Where no tag is empty or begins another one, a hash function
  without collisions tells different multisets apart (`TagStore.HashDetermines`).
- An interval above 300 seconds lets contexts expire before their bucket is flushed
  (`TimeSampler.LongIntervalLoses`); up to 300 they never do (`TimeSampler.ExecutionTimely`).
- `nextMessage` ends a packet at its first empty line and strips a trailing CR, so the framing round trip
  holds if and only if every message is non-empty, fits, has no newline and does not end in CR
  (`Framing.RoundTrip`).

## Model

| member | source | states |
|---|---|---|
| `Bins.IncrSafe` | quantile/bin.go:19-29 | no item is lost: new width plus what is left over is the old width plus the increment; something is left over only behind a full bin |
| `Bins.AppendSafe` | quantile/bin.go:35-54 | the list is extended by the remainder bin followed by full bins |
| `Bins.SplitHolds` | quantile/bin.go:35-54 | the appended bins hold exactly n items, all at key k |
| `Bins.SplitCanonical` | quantile/bin.go:35-54 | the appended bins are canonical: at most one partial bin, then full ones |
| `Bins.NSum` | quantile/bin.go:58-64 | the loop computes the total mass |
| `Bins.CanonicalUnique` | quantile/bin.go:35-54 | two canonical lists that hold the same number of items up to every key are equal |
| `Keys.BufCountLeadingEqual` | quantile/store.go:194-205 | the length of the maximal run of equal keys at the start position |
| `Keys.SortKeysHolds` | quantile/store.go:138-140 | sorting a batch orders it and keeps how many keys lie at or below any key |
| `Keys.CountLEMultiset` | quantile/store.go:138-140 | those counts depend only on the multiset of keys |
| `Keys.RankLocates` | quantile/sparse.go:123-125 | the item of rank r of a sorted list is the one whose counts enclose r |
| `SparseStore.InsertCum` | quantile/store.go:133-185 | insertion adds exactly the batch: cumulative counts add up at every key, and so does the mass |
| `SparseStore.InsertWellFormed` | quantile/store.go:133-185 | insertion keeps keys sorted and widths in 1..65535, and never shortens the list |
| `SparseStore.InsertCanonical` | quantile/store.go:133-185 | insertion keeps the canonical form |
| `SparseStore.MergeCum` | quantile/store.go:101-131 | merging adds cumulative counts at every key |
| `SparseStore.MergeWellFormed` | quantile/store.go:101-131 | merging keeps keys sorted and widths legal, and is no shorter than either list |
| `SparseStore.MergeCanonical` | quantile/store.go:101-131 | merging keeps the canonical form |
| `Trim.TrimLeft` | quantile/store.go:48-99 | the in-place algorithm leaves the trimmed list in the front of the array |
| `Trim.DrainLeft` | quantile/store.go:77-88 | fewer overflow bins than removed ones, and together with the rest they are the drained list |
| `Trim.CopyDown` | quantile/store.go:95-98 | the two copies put the overflow before the kept bins without overwriting an unread bin |
| `Trim.TrimmedHolds` | quantile/store.go:48-99 | mass, order and widths survive; items move only to greater keys, so that no count falls by more than 65535; counts are exact from the first kept key on |
| `Trim.TrimmedLength` | quantile/store.go:48-99 | the cap is exceeded by exactly (mass of the first nRemove+1 bins - 1) / 65535 bins, and the list never grows |
| `SketchRuns.RunValid` | quantile/sparse.go:41-71 | every mix of inserts and merges keeps bins sorted, widths legal and their sum equal to count, the number of keys put in |
| `SketchRuns.RunCounts` | quantile/store.go:101-185 | over any history counts never rise, and equal those of the inserted keys wherever every trim was exact |
| `SketchRuns.UntrimmedIsReference` | quantile/store.go:101-185 | without a limit every history ends in the canonical list of its keys |
| `SketchRuns.FitsNeverTrims` | quantile/store.go:48-99 | if the final bins fit the limit, no step on the way was trimmed |
| `SketchRuns.RunIsReference` | quantile/store.go:101-185 | if the keys fit the limit, any mix of batches and merges ends in the one canonical list for them |
| `SketchRuns.OrderInvisible` | quantile/store.go:101-185 | two histories of the same multiset of keys end in the same store |
| `SketchRuns.MergeCommutes` | quantile/store.go:101-131 | merging is commutative on stores that fit |
| `SketchRuns.MergeAssociates` | quantile/store.go:101-131 | merging is associative on stores that fit |
| `Quantile.QuantilePicksRank` | quantile/sparse.go:78-125 | for every history and 0<q<1 the rank is the whole number nearest to q*(n-1) for n keys inserted, even on a tie; the picked key is at least the key of the item of that rank, at most any exact key above it, and that very key where it is exact |
| `Quantile.Query` | quantile/sparse.go:78-121 | the loop finds the bin of the rank, which is nearest to q*(count-1) and even on a tie, and never reaches the NaN exit; the values for an empty sketch, q<=0 and q>=1 |
| `Quantile.PickHolds` | quantile/sparse.go:93-97 | the picked bin contains the item of that rank |
| `Quantile.PickWeightRange` | quantile/sparse.go:93-99 | the interpolation weight is in (0, 1] |
| `Quantile.PickMonotone` | quantile/sparse.go:93-99 | a higher rank picks a later bin, or the same one with no greater weight |
| `Quantile.RankMonotone` | quantile/sparse.go:123-125 | rank is monotone in q |
| `Quantile.RankInRange` | quantile/sparse.go:123-125 | for q in [0, 1] the rank is in 0..count-1 |
| `Quantile.NearestUnique` | quantile/sparse.go:123-125 | only one whole number is nearest with ties to even, so that determines the rank |
| `QuantileOrder.ValueMonotone` | quantile/sparse.go:93-115 | the value is monotone over all ranks if and only if every bin of several items has its ends in order and no bin's last item exceeds the low end of the next |
| `QuantileOrder.MonotoneKeys` | quantile/config.go:49-61 | on a scale of powers of gamma, mirrored at negative keys, that holds if and only if the first bin ascends and every other bin of several items has no negative key and no positive key that the next bin repeats |
| `QuantileOrder.MonotoneByBins` | quantile/sparse.go:93-97 | for any value per bin and position, being monotone over ranks is being monotone inside every bin and at every border |
| `QuantileOrder.ValueInBin` | quantile/sparse.go:99-115 | the value of the j-th item of a bin lies j equal steps from its low to its high end, the first bin starting at the minimum |
| `QuantileOrder.LeastValue` | quantile/sparse.go:104-109 | the least item has the value of the minimum |
| `QuantileOrder.InsideDrops` | quantile/sparse.go:99-115 | at every position of a bin the value drops to the next one if and only if the ends are out of order |
| `QuantileOrder.BorderDrops` | quantile/sparse.go:99-115 | at a border it drops if and only if the last item exceeds the low end of the next bin |
| `QuantileOrder.NegativeBinDrops` | quantile/sparse.go:101-102 | behind the first bin the value drops from each item of a bin with a negative low end to the next |
| `QuantileOrder.SplitKeyDrops` | quantile/sparse.go:93-115 | between two bins of one key the value drops if and only if the earlier one holds several items and its ends are in order and apart; for the first bin if and only if its last item exceeds the low end of the key |
| `AgentSketch.InsertInto` | quantile/store.go:144-177 | the two-pointer loop over bins and key runs refines the insertion whose counts InsertCum states |
| `AgentSketch.MergeInto` | quantile/store.go:106-126 | the two-pointer loops refine the merge whose counts MergeCum states |
| `AgentSketch.TrimList` | quantile/store.go:127-129 | trimming the scratch slice in place refines the trimming that TrimmedHolds and TrimmedLength describe |
| `AgentSketch.Sketch.constructor` | quantile/sparse.go:54-58 | a new sketch is the empty history |
| `AgentSketch.Sketch.InsertBatch` | quantile/store.go:133-185 | the store becomes the trimmed insertion of the batch and stays valid |
| `AgentSketch.Sketch.MergeFrom` | quantile/store.go:101-131 | the store becomes the trimmed merge with the other sketch as it was before the call, also when that is the same object; another one is unchanged |
| `AgentSketch.Sketch.Reset` | quantile/sparse.go:54-58 | the sketch is empty again |
| `AgentSketch.Sketch.CopyTo` | quantile/sparse.go:128-134 | the destination gets the contents of the source |
| `AgentSketch.Sketch.QuantileOf` | quantile/sparse.go:78-121 | on a valid sketch the query for 0<q<1 is a number, the value of the rank nearest to q*(count-1), even on a tie |
| `AgentSketch.AgentRefinesSketch` | quantile/agent.go:33-72 | the buffered agent is an ordinary sketch fed in batches: its history and its buffer together hold the keys offered, in order, and the buffer stays below its capacity |
| `AgentSketch.AgentFinishIsReference` | quantile/agent.go:22-72 | while they fit, what Finish sees is the canonical list of all keys offered, however buffered |
| `AgentSketch.Agent.Flush` | quantile/agent.go:33-40 | the buffer is inserted as one batch and emptied |
| `AgentSketch.Agent.Insert` | quantile/agent.go:49-58 | one key more, with a flush at capacity |
| `AgentSketch.Agent.InsertN` | quantile/agent.go:61-72 | n times one key more, with a flush whenever capacity is reached |
| `AgentSketch.Agent.Finish` | quantile/agent.go:22-30 | nothing for an empty agent, otherwise a fresh copy of everything inserted |
| `AgentSketch.Agent.Reset` | quantile/agent.go:43-46 | the agent is empty again |
| `Framing.RoundTrip` | agent/packet_buffer.go:52-75 | under every interleaving of messages and flush ticks, parsing all packets gives back the messages if and only if each is non-empty, fits, has no newline and does not end in CR |
| `Framing.RunLines` | agent/packet_buffer.go:52-75 | under every interleaving the lines on the wire are the messages in order |
| `Framing.FlushKeepsPackets` | agent/packets_buffer.go:49-63 | a tick of either buffer changes when packets leave, never what leaves, and empties that buffer |
| `Framing.QueueBounded` | agent/packets_buffer.go:49-63 | in every run the queue stays below its size and what was sent stays sent |
| `Framing.TicksDeliver` | agent/packets_buffer.go:36-63 | a tick of each buffer sends everything |
| `Framing.ParseCleansLines` | agent/server.go:281-295 | the message loop yields the lines without trailing CR, up to the first that is empty |
| `Framing.ParsedIsPlain` | agent/server.go:264-276 | whatever is parsed is non-empty, without newline and no longer than a packet |
| `Framing.NextMessage` | agent/server.go:264-276 | the message is the first line without CR, and the packet advances behind it unless it is empty |
| `Framing.ParsePackets` | agent/server.go:281-295 | the loops yield the messages of all packets in order |
| `Framing.PacketsBuffer.AppendPacket` | agent/packets_buffer.go:49-56 | the packet is queued, and a full queue flushed to the output |
| `Framing.PacketsBuffer.FlushAll` | agent/packets_buffer.go:58-63 | the queued packets follow what was sent before |
| `Framing.PacketBuffer.Add` | agent/packet_buffer.go:52-65 | the message joins the pending packet if it fits behind a separator, otherwise that packet is flushed first |
| `Framing.PacketBuffer.Join` | agent/packet_buffer.go:56-59 | the pending bytes are kept and followed by newline and message |
| `Framing.PacketBuffer.FlushPending` | agent/packet_buffer.go:67-75 | the pending packet, if any, goes to the packets buffer |
| `MonotonicCount.Counter.AddSample` | metrics/monotonic_count.go:22-37 | the object takes the step for which RisesConserved accounts every rise, keeping the last two samples over a flush |
| `MonotonicCount.Counter.Flush` | metrics/monotonic_count.go:39-56 | what is reported is exactly the pending sum, which starts over at zero; nothing is reported or changed without a new sample and an earlier one |
| `MonotonicCount.RisesConserved` | metrics/monotonic_count.go:22-56 | wherever flushes fall, what they sent plus what is pending is the sum of the positive differences of consecutive samples |
| `MonotonicCount.FlushDrains` | metrics/monotonic_count.go:39-56 | after a final flush everything was sent |
| `MonotonicCount.IncreasingRun` | metrics/monotonic_count.go:22-56 | for samples that never fall the sum is last minus first |
| `Histogram.MedianWalk` | metrics/histogram.go:137-146 | the walk finds position (count-1)/2 of the list with samples repeated by weight |
| `Histogram.PercentileWalk` | metrics/histogram.go:166-189 | one pass gives one value per percentile, each at position (p*count-1)/100 of that list |
| `Histogram.SortedExpansion` | metrics/histogram.go:124-124 | sorting samples and repeating them is repeating and sorting, however ties fall |
| `Histogram.ExpandAt` | metrics/histogram.go:140-146 | a position lies in the first sample whose running weight exceeds it |
| `Histogram.WeightAtLeastOne` | metrics/histogram.go:108-117 | every sample rate in [0, 1] gives a weight of at least one |
| `Histogram.WeightOfRate` | metrics/histogram.go:108-117 | for rates in (0, 1] the weight is the whole number of times the rate goes into one, and the scaled value times the rate is the value |
| `Histogram.MedianSplits` | metrics/histogram.go:137-146 | less than half of the repeated values lie below the median and at most half above |
| `Histogram.PercentileSplits` | metrics/histogram.go:166-189 | less than p hundredths of them lie below the percentile p and at most the other hundredths above |
| `Histogram.Metric.AddSample` | metrics/histogram.go:108-117 | the sample is kept with its weight, and sum and count stay those of the samples |
| `Histogram.Metric.AggregateOf` | metrics/histogram.go:129-164 | maximum and minimum over all samples, median, average, sum and rate of the count |
| `Histogram.Metric.Flush` | metrics/histogram.go:119-197 | every implemented aggregate and every percentile of the sorted repeated list is reported, then the histogram is empty |
| `TemplateCache.SetConsistent` | autodiscovery/templatecache.go:34-59 | storing keeps the index exact: a digest is listed under an identifier as often as its template names it |
| `TemplateCache.DelConsistent` | autodiscovery/templatecache.go:89-117 | deleting keeps it exact if and only if the argument names every identifier of the stored template at least as often |
| `TemplateCache.RunConsistent` | autodiscovery/templatecache.go:34-117 | if equal digests imply equal identifier lists, every run keeps the index exact |
| `TemplateCache.StoredExactly` | autodiscovery/templatecache.go:34-117 | in every run a digest is stored if and only if a template with identifiers was set under it since it was last deleted, and then the first such one |
| `TemplateCache.GetExact` | autodiscovery/templatecache.go:62-76 | on an exact index Get returns exactly the stored templates naming the identifier, never an absent one |
| `TemplateCache.DeleteOther` | autodiscovery/integration/config.go:255-281 | for every hash, deleting with identifiers a and b removes a template stored with ab and leaves a zero configuration |
| `TemplateCache.TemplateStore.Put` | autodiscovery/templatecache.go:34-59 | the object takes the step that SetConsistent proves exact; a template without identifiers is refused and changes nothing |
| `TemplateCache.TemplateStore.Find` | autodiscovery/templatecache.go:62-76 | the loop returns what GetExact characterises; an unknown identifier is an error |
| `TemplateCache.TemplateStore.Remove` | autodiscovery/templatecache.go:89-117 | the in-place removal takes the step that DelConsistent judges; an unknown digest is an error and changes nothing |
| `Backoff.SaturatesFromMaxErrors` | forwarder/blocked_endpoints.go:75-75 | maxErrors is the least error count at which the backoff exceeds the maximum |
| `Backoff.MaxErrorsPositive` | forwarder/blocked_endpoints.go:75-75 | maxErrors is positive if and only if base <= max |
| `Backoff.ConfigureValid` | forwarder/blocked_endpoints.go:56-96 | every configuration ends in valid settings: good values are kept, others replaced by the defaults, and reset makes the recovery interval maxErrors |
| `Backoff.DurationRange` | forwarder/blocked_endpoints.go:148-164 | a draw lies between the level over the factor and the level, never above the maximum, and is the maximum from maxErrors on |
| `Backoff.DrawsSeparated` | forwarder/blocked_endpoints.go:34-37 | with factor 2, or at the last level, every draw at n errors is below every draw at n+1 |
| `Backoff.DrawsOverlap` | forwarder/blocked_endpoints.go:34-37 | with a greater factor and both levels below the maximum some draws overlap |
| `Backoff.RunBounded` | forwarder/blocked_endpoints.go:98-136 | for base <= max every run keeps error counts in 0..maxErrors and no block longer than the maximum |
| `Backoff.RunNeverBlocks` | forwarder/blocked_endpoints.go:98-136 | for base > max no run blocks an endpoint |
| `Backoff.FirstFailureBlocks` | forwarder/blocked_endpoints.go:98-116 | a first failure blocks if and only if base <= max |
| `Backoff.FirstSuccessBlocks` | forwarder/blocked_endpoints.go:118-136 | a first success blocks if and only if the recovery interval is negative |
| `Backoff.RecoveryNegative` | forwarder/blocked_endpoints.go:77-86 | the recovery interval is negative if and only if recovery resets and base > 2*max |
| `Backoff.CountsOverRuns` | forwarder/blocked_endpoints.go:98-136 | in every run, after k failures in a row of a new endpoint its count is min(k, maxErrors), after j successes that minus j recovery intervals, not below 0, and its block lasts for the backoff of that count from the last event on |
| `Backoff.EndpointsApart` | forwarder/blocked_endpoints.go:98-136 | in every run an endpoint is where its own events alone would have left it |
| `Backoff.BackoffIsExponential` | forwarder/blocked_endpoints.go:109-163 | in every run k failures in a row block for base*2^k seconds, down to that over the factor, or for the maximum once that exceeds it |
| `Backoff.BlockedEndpoints.constructor` | forwarder/blocked_endpoints.go:56-96 | the settings derived from the configuration, nothing blocked |
| `Backoff.BlockedEndpoints.Close` | forwarder/blocked_endpoints.go:98-116 | the step of a failure in the runs that CountsOverRuns and BackoffIsExponential describe: one error more, up to maxErrors, and a new block |
| `Backoff.BlockedEndpoints.Recover` | forwarder/blocked_endpoints.go:118-136 | the step of a success in those runs: the error count steps down, not below 0, and a new block |
| `Forwarder.NothingLost` | forwarder/domain_forwarder.go:78-145 | in every interleaving a transaction is in the queues, a worker, finished or dropped at a named full queue exactly as often as it was submitted |
| `Forwarder.NextConserves` | forwarder/worker.go:81-160 | every step moves transactions between places; only a submission adds one |
| `Forwarder.FirstInFirstOut` | forwarder/worker.go:81-160 | in every interleaving what was taken from each channel and what it holds is what was put in, in that order |
| `Forwarder.HighPriorityFirst` | forwarder/worker.go:86-111 | a worker turns to the low-priority queue only after finding the other empty, and otherwise takes its oldest transaction |
| `Forwarder.RunBounded` | forwarder/domain_forwarder.go:147-154 | in every interleaving the channels stay within their buffers and a running pass keeps its order |
| `Forwarder.PassKeepsNewest` | forwarder/domain_forwarder.go:72-116 | a pass leaves at most limit transactions, none older than one it dropped for a full retry queue, and drops for that reason only when it is full |
| `Forwarder.PassRunHolds` | forwarder/domain_forwarder.go:93-113 | the iterations of a pass send, keep or drop each transaction left once: the four places they go to grow by exactly those, nothing leaves them, and every other place is unchanged |
| `Forwarder.PassPartitions` | forwarder/domain_forwarder.go:78-116 | one pass deals the newest-first queue out by the breaker's verdicts: the unblocked are sent, in order, until the workers' queue is full and the rest of them dropped, the blocked kept, in order, up to the limit and the rest of them dropped; no loss or duplicate, no other place changed, none dropped for a full queue newer than one kept |
| `Forwarder.RetryQueueExceedsLimit` | forwarder/domain_forwarder.go:125-139 | for every limit and any number of workers some run from the start leaves more than limit transactions in the retry queue between passes |
| `Forwarder.RetryQueueWithinLimit` | forwarder/domain_forwarder.go:104-130 | in every run, between passes, the queue is within its limit if and only if no more was received since the last pass than it left room for; a pass itself keeps at most the limit |
| `Forwarder.SortNewestFirst` | forwarder/domain_forwarder.go:72-76 | a permutation of the queue, newest first |
| `Forwarder.DomainForwarder.SendHTTPTransactions` | forwarder/domain_forwarder.go:212-222 | queued, or counted as dropped with an error when the queue is full |
| `Forwarder.DomainForwarder.RequeueTransaction` | forwarder/domain_forwarder.go:125-139 | the oldest handed-back transaction joins the retry queue |
| `Forwarder.DomainForwarder.FirstSelect` | forwarder/worker.go:87-97 | the step of the worker loop of which HighPriorityFirst and FirstInFirstOut speak: the oldest high-priority transaction, or on to the second select |
| `Forwarder.DomainForwarder.SecondSelect` | forwarder/worker.go:99-110 | the step by which FirstInFirstOut holds of both queues: the oldest transaction of whichever is ready |
| `Forwarder.DomainForwarder.Process` | forwarder/worker.go:139-160 | blocked and failed transactions are handed back, and the breaker closes or recovers exactly when the transaction was tried |
| `Forwarder.DomainForwarder.RetryTransactions` | forwarder/domain_forwarder.go:78-123 | the pass is the sequence of interleaving steps over a newest-first permutation of the queue, so PassPartitions says where each transaction goes and NothingLost holds of it |
| `Dispatcher.AddConfigInv` | clusteragent/clusterchecks/dispatcher_configs.go:43-79 | dispatching keeps digestToNode the exact inverse of the nodes' configurations and identifiers linked to registered digests; the configuration is on its target or dangling |
| `Dispatcher.AddConfigExact` | clusteragent/clusterchecks/dispatcher_configs.go:43-59 | exactly this configuration is registered, linked from its identifiers and, without a target, dangling |
| `Dispatcher.AddConfigNodes` | clusteragent/clusterchecks/dispatcher_configs.go:61-79 | with a target it is stored there, and no entry of another configuration changes on any node |
| `Dispatcher.RemoveConfigExact` | clusteragent/clusterchecks/dispatcher_configs.go:81-102 | exactly this configuration is gone, from every map and node |
| `Dispatcher.RemoveConfigInv` | clusteragent/clusterchecks/dispatcher_configs.go:81-102 | removing keeps the invariant |
| `Dispatcher.ExpireNodesInv` | clusteragent/clusterchecks/dispatcher_nodes.go:108-142 | expiring keeps the invariant |
| `Dispatcher.NextInv` | clusteragent/clusterchecks/dispatcher_main.go:119-204 | every step of the interleaved system keeps it, and every wanted or registered configuration is placed, dangling or in flight |
| `Dispatcher.NothingLost` | clusteragent/clusterchecks/dispatcher_configs.go:43-127 | in every interleaving no configuration is on two nodes; when nothing is in flight the scheduled ones are registered and the registered ones are exactly those on a node or dangling |
| `DispatcherRuns.UnscheduledStaysOut` | clusteragent/clusterchecks/dispatcher_main.go:95-144 | an unscheduled configuration stays out of every continuation that does not schedule it if and only if no re-dispatch has taken it, no move has read it and it is not the zero configuration |
| `DispatcherRuns.RedispatchBringsBack` | clusteragent/clusterchecks/dispatcher_main.go:175-183 | a run from the start in which a re-dispatch brings an unscheduled configuration back |
| `DispatcherRuns.MoveBringsBack` | clusteragent/clusterchecks/dispatcher_rebalance.go:153-157 | a run from the start in which a move brings an unscheduled configuration back |
| `DispatcherRuns.RegisteredWasScheduled` | clusteragent/clusterchecks/dispatcher_configs.go:43-170 | in every run a configuration that is registered, in flight or being moved was scheduled, or is the zero one and some move read a check linked to no configuration |
| `DispatcherRuns.PhantomComes` | clusteragent/clusterchecks/dispatcher_rebalance.go:153-157 | from every state, moving a check linked to no configuration registers the zero configuration |
| `DispatcherRuns.PhantomRun` | clusteragent/clusterchecks/dispatcher_rebalance.go:153-157 | a run from the start in which a check is unscheduled before its move and a configuration nobody wants is registered |
| `DispatcherRuns.ExpiryByLastStatus` | clusteragent/clusterchecks/dispatcher_nodes.go:108-142 | in every run expiry drops exactly the nodes whose last status is older than the cutoff, leaves the others as they are and lets exactly the dropped ones' configurations dangle |
| `DispatcherRuns.ApartIff` | clusteragent/clusterchecks/dispatcher_configs.go:55-79 | throughout a run no configuration is on a node and dangling at once, if and only if none is dispatched while it dangles or left dangling while on a node |
| `DispatcherRuns.BothAtOnce` | clusteragent/clusterchecks/dispatcher_configs.go:55-79 | scheduling without a node and then with one leaves a configuration in both places |
| `Dispatcher.GetLeastBusyNode` | clusteragent/clusterchecks/dispatcher_nodes.go:74-103 | a named node of least busyness by count or by statistics, none if there is none |
| `Dispatcher.FreshAddsBalanced` | clusteragent/clusterchecks/dispatcher_main.go:127-137 | adding fresh configurations by count keeps named nodes within one of each other |
| `Dispatcher.ExpireEach` | clusteragent/clusterchecks/dispatcher_nodes.go:108-142 | the loop drops exactly the expired nodes and lets their configurations dangle, in any order |
| `Dispatcher.ClusterDispatcher.DoAddConfig` | clusteragent/clusterchecks/dispatcher_configs.go:43-79 | the updates of the four maps together are the step that AddConfigInv proves invariant, also when the configuration changes node |
| `Dispatcher.ClusterDispatcher.DoRemoveConfig` | clusteragent/clusterchecks/dispatcher_configs.go:81-102 | the deletions from the four maps together are the step that RemoveConfigInv proves invariant |
| `Dispatcher.ClusterDispatcher.DoExpireNodes` | clusteragent/clusterchecks/dispatcher_nodes.go:108-142 | the deletions while looping end in the store without the expired nodes, their configurations dangling, invariant kept |
| `Dispatcher.ClusterDispatcher.DoProcessNodeStatus` | clusteragent/clusterchecks/dispatcher_nodes.go:40-69 | the node exists with a new heartbeat |
| `Dispatcher.ClusterDispatcher.DoAdd` | clusteragent/clusterchecks/dispatcher_main.go:127-137 | the configuration goes to a least busy node |
| `Dispatcher.ClusterDispatcher.Reschedule` | clusteragent/clusterchecks/dispatcher_main.go:119-124 | every configuration is placed or dangling again and the invariant is kept |
| `Dispatcher.ClusterDispatcher.RedispatchDangling` | clusteragent/clusterchecks/dispatcher_main.go:180-183 | no configuration is lost, and none dangles if there is a named node |
| `Dispatcher.ClusterDispatcher.CleanupTick` | clusteragent/clusterchecks/dispatcher_main.go:175-183 | expiry and re-dispatch lose no configuration, and none dangles if a named node is left |
| `Dispatcher.ClusterDispatcher.RetrieveAndClearDangling` | clusteragent/clusterchecks/dispatcher_configs.go:120-127 | the dangling configurations are handed out and no longer dangle |
| `Rebalance.MoveImproves` | clusteragent/clusterchecks/dispatcher_rebalance.go:113-212 | for any average an accepted move leaves the destination strictly below the source's old load, raises no maximum, lowers the sum of squares (strictly for positive weight), and conserves the total if and only if no weight was overwritten |
| `Rebalance.MoveImproved` | clusteragent/clusterchecks/dispatcher_rebalance.go:131-162 | accepted moves keep the dispatcher's invariant and every configuration and improve the loads; with checks on one node each the total is conserved |
| `Rebalance.MoveCheckInv` | clusteragent/clusterchecks/dispatcher_rebalance.go:131-162 | a move keeps the dispatcher's invariant and changes only configurations and the two nodes' statistics |
| `Rebalance.MoveConfigs` | clusteragent/clusterchecks/dispatcher_rebalance.go:150-157 | a move keeps every configuration registered, unchanged and placed, and puts the one of its check on the destination; it adds none if its check is linked, and otherwise exactly the zero one |
| `Rebalance.MoveLinks` | clusteragent/clusterchecks/dispatcher_rebalance.go:150-157 | if every cluster check is linked, they still are after moving one, and the registered configurations are the same |
| `Rebalance.MoveIsSteps` | clusteragent/clusterchecks/dispatcher_rebalance.go:131-162 | a move is five steps of the interleaved system |
| `Rebalance.MoveKeepsSystem` | clusteragent/clusterchecks/dispatcher_rebalance.go:131-162 | so a move keeps the invariant of the interleaved system, from which NothingLost follows |
| `Rebalance.SourceShrinks` | clusteragent/clusterchecks/dispatcher_rebalance.go:150-151 | a move takes one cluster check off its source |
| `Rebalance.WeightHolds` | clusteragent/clusterchecks/helpers.go:98-100 | four fifths of the execution time and one fifth of the samples, rounded down |
| `Rebalance.GetBusyness` | clusteragent/clusterchecks/stores.go:155-163 | the sum of the check weights, in any order |
| `Rebalance.UpdateDiff` | clusteragent/clusterchecks/dispatcher_rebalance.go:77-89 | load minus average for every node |
| `Rebalance.CalculateAvg` | clusteragent/clusterchecks/dispatcher_rebalance.go:35-52 | some node's load over the number of nodes; an error without nodes |
| `RebalanceLoop.AverageRightIff` | clusteragent/clusterchecks/dispatcher_rebalance.go:42-51 | that is the true average for every order of visiting the nodes if and only if there is one node or the total load is below the number of nodes |
| `Rebalance.MostWeightedClusterCheck` | clusteragent/clusterchecks/stores.go:167-191 | a heaviest cluster check; an error if there is none |
| `Rebalance.OrderedKeys` | clusteragent/clusterchecks/helpers.go:103-110 | exactly the keys, in string order |
| `Rebalance.PickNode` | clusteragent/clusterchecks/dispatcher_rebalance.go:113-128 | the first node in string order of least difference other than the source; empty if there is none |
| `Rebalance.DoMoveCheck` | clusteragent/clusterchecks/dispatcher_rebalance.go:131-162 | statistics and configuration move, also when source and destination are one node; an unknown node or check is an error and changes nothing |
| `RebalanceLoop.DrainNode` | clusteragent/clusterchecks/dispatcher_rebalance.go:181-210 | the inner loop is a run of moves, each of a heaviest cluster check to a least loaded other node within nine tenths of the source's excess, until the node is not above the average, has no cluster check, or the margin forbids the next move; it keeps the invariant and every configuration and only improves the loads |
| `RebalanceLoop.DrainAll` | clusteragent/clusterchecks/dispatcher_rebalance.go:178-211 | the outer loop visits every node once, the busiest first, and drains each so |
| `RebalanceLoop.DoRebalance` | clusteragent/clusterchecks/dispatcher_rebalance.go:166-212 | rebalance does that with some node's load over the number of nodes as the average; if every cluster check is linked, the registered configurations stay exactly the same |
| `RebalanceLoop.DrainedOrMoves` | clusteragent/clusterchecks/dispatcher_rebalance.go:181-209 | a node from which a move is possible is not drained |
| `RebalanceLoop.DrainImproves` | clusteragent/clusterchecks/dispatcher_rebalance.go:181-210 | draining a node from which a check of positive weight can move strictly lowers the sum of squares |
| `RebalanceLoop.TwoNodesEven` | clusteragent/clusterchecks/dispatcher_rebalance.go:166-212 | of two nodes, one with twice the weight of its heaviest check and one empty, both end with that weight, whichever the average was taken from |
| `RebalanceLoop.UpdateRunnersStats` | clusteragent/clusterchecks/dispatcher_nodes.go:146-188 | every node that answered gets its statistics, linked checks marked as cluster checks, and its load as busyness; the others keep theirs, in any order |
| `RebalanceLoop.CollectedLinked` | clusteragent/clusterchecks/dispatcher_nodes.go:166-185 | when every node answered and no runner marks checks itself, every cluster check is linked |
| `RebalanceLoop.StatsTick` | clusteragent/clusterchecks/dispatcher_main.go:194-200 | collecting and rebalancing keep every configuration; under those conditions they add none |
| `RebalanceLoop.RunTicks` | clusteragent/clusterchecks/dispatcher_main.go:169-202 | whatever the order of cleanup and statistics ticks, no configuration is lost, every one is on a node or dangling, and at most the zero one is new |
| `SketchMap.FlushBefore` | aggregator/sketch_map.go:67-82 | every non-empty sketch of a closed bucket is handed out once under its context, and exactly the closed buckets leave the map |
| `SketchMap.CollectBucket` | aggregator/sketch_map.go:73-78 | one bucket adds exactly its non-empty sketches, in any order |
| `BucketTime.SameClosing` | aggregator/time_sampler.go:52-58 | for aligned times a bucket is closed for series exactly when it is for sketches |
| `TimeSampler.AddSampleTracked` | aggregator/time_sampler.go:61-86 | a sample keeps the context of everything unflushed tracked |
| `TimeSampler.FlushedTracked` | aggregator/time_sampler.go:183-195 | so does a flush, for intervals up to 300 |
| `TimeSampler.LongIntervalLoses` | aggregator/context_resolver.go:70-87 | for every longer interval a flush expires a context whose bucket is unflushed |
| `TimeSampler.ExecutionTimely` | aggregator/time_sampler.go:61-195 | in every run with non-decreasing times bucket starts are aligned and not before the last cutoff, and for intervals up to 300 every context in a bucket or sketch is tracked |
| `TimeSampler.ClosedIsReported` | aggregator/time_sampler.go:109-123 | whatever the metric of a closed bucket flushes to, with its zero, is reported as often as it flushes to it |
| `TimeSampler.ZeroIsReported` | aggregator/time_sampler.go:117-135 | a counter not yet expired and not sampled in a closed bucket is reported as zero there, once; without any bucket, for the last whole interval |
| `TimeSampler.NothingElseReported` | aggregator/time_sampler.go:109-135 | only closed buckets are reported, and in them only sampled contexts and counters not yet expired |
| `TimeSampler.ZerosKeepContexts` | aggregator/time_sampler.go:212-241 | a zero keeps the context of its counter, and a counter that had expired is forgotten |
| `SamplerRuns.RunHoldsSamples` | aggregator/time_sampler.go:61-86 | in every run each bucket and sketch holds exactly the samples of its interval: a counter their scaled sum, a rate the last two, other metrics and sketches all values in order |
| `SamplerRuns.SampleLeavesWithFlush` | aggregator/time_sampler.go:102-195 | in every run a sample is in its bucket until the first flush whose cutoff reaches the bucket's end, and leaves with that one; for intervals up to 300 its context resolves |
| `SamplerRuns.CounterIsReported` | aggregator/time_sampler.go:102-195 | that flush reports a counter once, with the scaled sum of all samples of the bucket over the interval |
| `SamplerRuns.RateIsReported` | metrics/rate.go:20-51 | and a rate once, at its last sample, with the slope between its last two samples, if it does not fall |
| `SamplerRuns.DistributionIsHandedOut` | aggregator/time_sampler.go:166-181 | and hands a distribution's values out in one sketch |
| `SamplerRuns.CounterRemembered` | aggregator/time_sampler.go:61-86 | in every run the last sampling of a counter is remembered until a flush past it by more than the expiry |
| `TimeSampler.ReportedInWindow` | aggregator/time_sampler.go:102-164 | a flush reports only points from the previous cutoff to its own |
| `TimeSampler.FlushWindow` | aggregator/time_sampler.go:102-195 | the same for every flush of every run |
| `TimeSampler.NoBucketTwice` | aggregator/time_sampler.go:102-195 | in every run what a later flush reports lies in a later bucket than what an earlier one did |
| `TimeSampler.SketchesClose` | aggregator/time_sampler.go:166-181 | in every run a flush hands out exactly the sketches of the buckets it closes |
| `TimeSampler.SketchWindow` | aggregator/time_sampler.go:166-195 | in every run sketches are handed out for the window from the previous cutoff to the new one |
| `TimeSampler.NoSketchTwice` | aggregator/time_sampler.go:166-195 | no sketch bucket is handed out twice in a run |
| `TimeSampler.ZeroIsHarmless` | aggregator/time_sampler.go:212-230 | a zero sample does not change what a sampled counter reports |
| `TimeSampler.CountersSampleZeroValue` | aggregator/time_sampler.go:212-241 | every live counter gets a zero and is seen at that time, the others lapse, in any order |
| `TimeSampler.FlushContents` | metrics/context_metrics.go:59-82 | the series of a bucket are those of its metrics, in any order |
| `TimeSampler.FlushRaw` | aggregator/time_sampler.go:102-134 | the bucket loop reports every closed bucket once, with zeros, and without buckets the last interval: what ClosedIsReported and ZeroIsReported say of it |
| `TimeSampler.MergeBySignature` | aggregator/time_sampler.go:141-163 | one serie per signature with the context of its key, holding every point of a context that resolves once |
| `TimeSampler.FlushSketches` | aggregator/time_sampler.go:166-181 | one sketch serie per context, every closed sketch once, and no context missing when all are tracked |
| `TimeSampler.TimeSampler.Add` | aggregator/time_sampler.go:61-86 | the updates of contexts, buckets, counters and sketches together are the step that ExecutionTimely proves safe; a value that is not finite only tracks its context |
| `TimeSampler.TimeSampler.Flush` | aggregator/time_sampler.go:183-195 | the step of a run; whatever the metrics of a bucket that leaves flush to is handed out, once each time, if their context resolves, one serie per signature, every closed sketch once, and nothing else; when contexts are tracked everything sampled resolves and no sketch lacks its context |
| `TagStore.SelectedIsReturned` | tagger/tagstore.go:186-211 | the selection loops return a tag exactly as often as sources give it whose priority no same-named tag exceeds |
| `TagStore.ReturnedIff` | tagger/tagstore.go:155-230 | a tag is returned if and only if a source gives it that no same-named tag dominates |
| `TagStore.NameHolds` | tagger/tagstore.go:239-240 | a tag's name has no colon and is the whole tag or what stands before its first colon |
| `TagStore.StoredLevels` | tagger/tagstore.go:86-89 | a message sets the tags of its source at each cardinality, and those of no other source |
| `TagStore.InsertWithPriority` | tagger/tagstore.go:232-247 | every tag is filed under its name with priority and cardinality, once more per occurrence |
| `TagStore.InsertLevel` | tagger/tagstore.go:173-184 | all tags of all sources of one cardinality are filed, in any order |
| `TagStore.Select` | tagger/tagstore.go:190-210 | of one name exactly the entries of highest priority are kept, in the list of their cardinality |
| `TagStore.SelectAll` | tagger/tagstore.go:189-211 | the same over all names, in any order |
| `TagStore.Collate` | tagger/tagstore.go:169-211 | a computation on a cache miss returns what the sources define, up to order |
| `TagStore.FillCache` | tagger/tagstore.go:169-222 | the cache it leaves agrees with the sources at all three cardinalities |
| `TagStore.HashIgnoresOrder` | tagger/tagstore.go:95-108 | the hash depends only on the multiset of tags |
| `TagStore.HashForgetsBoundaries` | tagger/tagstore.go:95-108 | moving text from the front of one tag to the end of the one before, order kept, leaves the hash the same for every hash function |
| `TagStore.BoundariesExample` | tagger/tagstore.go:95-108 | two different multisets of tags with one hash, for every hash function |
| `TagStore.SameHashIff` | tagger/tagstore.go:95-108 | two lists share the hash for every hash function if and only if both are empty, or neither is and their sorted concatenations are equal |
| `TagStore.PerfectHashIff` | tagger/tagstore.go:95-108 | for a hash function without collisions, exactly then |
| `TagStore.HashDetermines` | tagger/tagstore.go:95-108 | where no tag is empty or begins another one, such a hash is equal if and only if the multisets of tags are |
| `TagStore.Store.ProcessTagInfo` | tagger/tagstore.go:47-93 | the errors, the deletion mark or the new tags of the source; the cache stays sound |
| `TagStore.Store.Prune` | tagger/tagstore.go:112-132 | exactly the marked entities are gone |
| `TagStore.Store.Lookup` | tagger/tagstore.go:138-230 | cached or not, the answer is a fresh computation up to order and changes no source; the three cardinalities are nested prefixes of one list until the next update |
| `StringOrder.OrderedUnique` | tagger/tagstore.go:95-108 | the sorted order depends only on the multiset |

## Left out

- Floating point rounding: values and times are reals. `int(0.8*t + 0.2*s)` is integer division of `4*t + s` by 5
  and `int(0.9*d)` is `9*d / 10`.
- `quantile/config.go`: keys are opaque integers, and the value of a key is a parameter of quantile queries; infinite
  keys are not singled out.
- `quantile/summary`: only the count is kept; minimum and maximum are parameters of quantile queries.
- AgentSketch.Sketch.InsertBatch: the caller's key slice is sorted as a copy, not in place, and the pooled
  scratch slices that insert and merge reuse are fresh sequences.
- Framing.PacketBuffer.FlushPending: the packet pool is not modelled; every packet gets a fresh buffer.
- Framing.ParsePackets: what is done with a message once split off.
- Forwarder.DomainForwarder.RetryTransactions: the answers of the breaker during the pass are a parameter, and the
  guard against two passes at once is not modelled, since one goroutine runs them all.
- Stopping the forwarder and closing its channels; HTTP, API keys and telemetry. The outcome of a transaction is a
  parameter.
- The dispatcher's endpoint configurations, client addresses, lastConfigChange and active flag. What runners answer is
  a parameter.
- Dispatcher.ClusterDispatcher.DoProcessNodeStatus: says nothing of the stored status and of the answer whether the
  node is up to date, which compares it with lastConfigChange.
- Dispatcher.ClusterDispatcher.CleanupTick: stated for a tick without interleaved scheduling; interleavings are the
  subject of NextInv and NothingLost.
- RebalanceLoop.DoRebalance: stated for non-negative statistics, and for a rebalance without interleaved scheduling.
- TimeSampler.TimeSampler.Flush: stated for non-decreasing, non-negative times; metric types other than rate and
  counter are summarised by an arbitrary function of their values.
- TimeSampler.ExecutionTimely: about contexts really sampled; a counter that gets zeros after its context expired does
  not resolve, as in the code.
- Histogram.PercentileWalk: says nothing for percentiles outside 0..100 or unsorted ones.
- TagStore.Store.ProcessTagInfo: a nil message, which the code skips with an error, is not modelled.
- Mutexes and the memory model: a method that holds its lock is one step.
- Configuration, listeners, providers, metadata, secrets, logging and marshalling.
