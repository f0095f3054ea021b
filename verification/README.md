# Backpressure Fabric: verified model

A Dafny 4.11 model of the four parts of Backpressure Fabric that carry its guarantees, and proofs of what they
guarantee. `dafny verify dfyconfig.toml` checks the whole project.

**Propagation engine.** One propagation is a state machine (`Traversal`): pop a queue entry that no other outranks,
settle its resource, consider its outgoing edges one by one, aggregate refusals, draw records from a budget. Which of
several tied entries is popped is left open, or given by an arbitrary picker that sees everything the queue has held
(`Steering`), as a heap does. `Worklist` is the same traversal with mutable state in nested loops, and every call is
proved to follow a complete run of the machine that obeys the picker; its outer loop terminates on every cyclic graph
because settled resources only accumulate and the queue shrinks otherwise. The theorems are about all runs: best-first
optimality, path reconstruction, tie independence, record accounting, dominance of hops, bounded amplification, the
damping ladder over many committed runs, recovery, batch order independence, and agreement of plan and commit. What the
steps of a run compute is stated a second time, independently of the machine: `Verdicts` says when an edge is refused
and with which reason, `Folds` what a walk does to the pressure in plain arithmetic, `Explanations` that every record of
a run is true, `Commitments` what a commit writes, and `Publishing` the exact result of a publish.

**Topology builder.** Canonical sorting, the counting-sort adjacency filled in place, the iterative component scan with
its explicit frame stack, and the builder that combines them, proved to accept exactly what it should and to hand the
engine the index and adjacency the engine relies on.

**Journal and store.** The file is a sequence of bytes with a synced length. Scanning, repair, appending and rewriting
are proved on arbitrary bytes, not only on bytes this code wrote; `Integrity` says on those bytes what a recovered
record guarantees. Above it the durable store: what each record does when replayed, what each operation journals and
does live, and the proof that the log refines the live state over every run. `StoreLaws` and `ReplayLaws` say on the
fields of the state which operation or record is refused, and what an accepted one changes; `Faults` says which error is
reported when several apply.

**Fabric protocol.** Opens, publishes, compactions and crashes as steps over a log and a process (`FabricCrash`), and
the same steps carried out on the bytes of the file (`FabricBytes`), with what each undisturbed open, publish and
maintenance comes to (`FabricRuns`); the asynchronous tickets, cancellation and worker pool as atomic steps between
critical sections, in any interleaving, the lives of single jobs (`TicketRuns`), and the publish inside a job, which
ends only in ways the ticket protocol allows for (`AsyncPublishing`).

Numbers are naturals; 64-bit and 32-bit limits are stated where the code relies on them, and the fixed-point products
are proved to stay inside a 64-bit word. Checksums and digests are arbitrary functions (`JournalFormat.Hashing`).

## Where the code does less than its documentation says

- `max_records >= max_expansions + max_visited` does not make explanations complete: refusals are recorded per resource
  and reason. `Shortfalls.ValidPolicyCanTruncate` is a valid policy whose run is truncated;
  `RunRecords.AmpleBudgetNeverTruncates` is a bound on the policy that rules truncation out.
- "The highest potential that reaches it" holds only while no hop, fan-out, expansion or record limit binds.
  `Shortfalls.HopLimitLosesDescendants` shows the failure; `Optimality.BestFirstOptimal` proves the claim for runs that
  report no limit and `Roomy.SpaciousRunIsOptimal` for limits that can be checked beforehand: hop limits longer than
  any admissible walk without repetition, and room for the widest row, every resource and every record.
- The queue order is not total. With granted amplification the choice among tied entries changes what is recorded
  (`TieMatters.TiesCanMatter`); without it nothing but predecessors depends on the choice (`Ties.TieIndependent`). Plan
  and commit agree either way, because one heap breaks ties the same way twice (`Propagation.ReportsAgree`).
- Duplicate edge identities are found only between neighbours: the builder takes the edges of
  `TopologyBuild.EdgeDuplicateMissed`, and `Canonical.EdgeDuplicatesFound` says exactly which duplicates it refuses.
  Duplicate resources are always found (`Canonical.ResourceDuplicatesFound`).
- The retention limit is not checked before a compaction replaces the file. `Compaction.CompactionCanLoseTheStore` is a
  store that opens and after a compaction does not; `Compaction.CompactionOpensIff` is the exact condition, and
  `DurableStores.DurableStore.CompactJournal` says what is on disk in each case.
- The header of a new journal is flushed but not synced. A crash before the first sync can leave a file that never
  opens (`Journals.FreshJournalCanBeLost`); `Journals.CrashedOpensIff` is the exact condition.
- `put_fence` journals before it looks at the capacity, and `clear_revalidation` and `record_pressure_footprint` do not
  check identities. `StoreRefinement.ReplayFollows` proves exactly which operations write a record that replay accepts.
- Compaction stores the epoch in force as the previous one (`Compaction.CompactedReplays`).
- `recover` moves the tick of a record even when no step has elapsed, so frequent calls never lower anything
  (`Ledgers.RecoveryStarves`); `Ledgers.FallsIff` says exactly which calls do.
- A truncated propagation ends with status ok and is published without changing the ledger
  (`Publishing.PublishLocked`).
- A commit that runs out of application slots has already marked its lineages (`Ledgers.Ledger.Commit`).

## Model

| member | source | states |
|---|---|---|
| FixedPoint.Attenuated | include/backpressure/core/fixed.hpp:259-264 | an attenuated potential is never above what it was, and the product fits a 64-bit word |
| FixedPoint.AttenuatedExact | include/backpressure/core/fixed.hpp:259-264 | an attenuated potential is the product over 65536 with only the fraction of a unit lost, bounded from both sides |
| FixedPoint.AttenuatedMonotone | include/backpressure/core/fixed.hpp:261-264 | truncated attenuation preserves order, so a stronger predecessor never delivers less |
| FixedPoint.AmplifiedBounds | include/backpressure/core/fixed.hpp:268-280 | amplification never lowers a potential and never exceeds the exact product |
| FixedPoint.AmplifiedExact | include/backpressure/core/fixed.hpp:268-280 | amplification is refused exactly when the exact product exceeds full scale; otherwise the result is the truncated product and the final clamp never acts |
| FixedPoint.MagnitudeRoundTrip | include/backpressure/core/fixed.hpp:286-290 | a magnitude turned into a potential rounds back to itself |
| FixedPoint.ToMagnitudeNearest | include/backpressure/core/fixed.hpp:286-290 | a potential rounds to the nearest magnitude, a half upwards |
| FixedPoint.ToMagnitudeMonotone | include/backpressure/core/fixed.hpp:286-290 | rounding to nearest preserves order |
| Model.GoverningIsFirstStrongest | include/backpressure/model/fence.hpp:129-140 | the governing fence is the first of the strongest live fences at a resource, and there is none exactly when no live fence applies |
| Records.FlushAccounts | src/engine/engine.cpp:723-747 | flushing conserves records plus budget, empties the table, succeeds exactly when the budget covers the reasons pending, and then loses no refused edge |
| Records.FlushKeepsReasons | src/engine/engine.cpp:723-747 | a pending reason is among the records after a flush that succeeds |
| RunBounds.RunBounded | src/engine/engine.cpp:335-366 | in every state of every run each resource has settled at most once and settlements, expansions, fan-out and depth are within their limits |
| Paths.PathReconstructs | src/engine/engine.cpp:593-635 | following predecessors from a settled resource gives a walk from the origin of exactly its depth whose folded attenuation and gain is its settlement |
| Paths.RunPathReconstructs | src/engine/engine.cpp:617-635 | the same for every settled resource of every run, within every hop bound |
| Paths.WalkAdmits | src/engine/engine.cpp:428-483 | every edge of such a walk is live, matches its pin, and enters a resource that can receive, is covered by authority and has no ingress-refusing governing fence |
| BestFirst.CrossMonotone | src/engine/engine.cpp:485-543 | without granted amplification, attenuation, floor and hysteresis together are monotone: a stronger entry is accepted whenever a weaker one is and delivers at least as much |
| BestFirst.RunFalling | src/engine/engine.cpp:343-366 | without granted amplification settlements never increase in potential and everything queued is at or below the last one |
| BestFirst.RunExploring | src/engine/engine.cpp:410-567 | every edge of a settled resource that could carry pressure has been accounted for by a settlement or queue entry at least as strong, unless a limit was reported |
| BestFirst.WalksAreDominated | src/engine/engine.cpp:343-574 | with a drained queue and no limit reported, every admissible walk ends at a resource settled at least as strongly |
| Optimality.BestFirstOptimal | src/engine/engine.cpp:343-574 | without granted amplification, a run that drains its queue with no limit reported settles a resource exactly when some admissible walk carries pressure to it, with the maximum over all such walks; nothing is reachable from an origin that may not take the pressure, and nothing settles |
| Roomy.SpaciousRunIsOptimal | src/engine/engine.cpp:387-427 | hop limits longer than every admissible walk that visits no resource twice, fan-out for the widest row, and expansion, visit and record budgets for the whole topology make every complete run optimal, however many resources there are |
| Roomy.PathVisits | src/engine/engine.cpp:593-635 | the walk recorded for a settled resource visits no resource twice and only resources that settled earlier |
| Roomy.ManyHopsSuffice | src/engine/engine.cpp:387-390 | hop limits of at least the number of resources are longer than every such walk |
| Shortfalls.HopLimitLosesDescendants | src/engine/engine.cpp:387-390 | a concrete run under a valid policy that never settles a resource an admissible walk reaches, because its predecessor settled along a stronger, longer walk |
| Shortfalls.ValidPolicyCanTruncate | include/backpressure/model/policy.hpp:177-186 | a concrete valid policy whose record budget meets the validation rule and whose run is truncated |
| RunRecords.RunAccounted | src/engine/engine.cpp:652-775 | at every point hops plus suppressions plus remaining budget is the initial budget; untruncated, refusals written and pending sum to those counted and every considered edge is accepted or refused |
| RunRecords.AmpleBudgetNeverTruncates | src/engine/engine.cpp:723-757 | a budget of one record per expansion and one per reason and visited resource is never exhausted |
| Ties.RunsSimilar | src/engine/engine.cpp:130-140 | two runs of one context agree state by state on everything but predecessors and queue order |
| Ties.TieIndependent | src/engine/engine.cpp:130-140 | without granted amplification every tie-break gives the same settlements, hop and suppression records, forwarding set, counters and ending |
| TieMatters.TiesCanMatter | src/engine/engine.cpp:128-140 | one valid context with granted amplification and two complete runs of it, each popping only entries none outranks, that record different hops |
| Steering.SteeredRunUnique | src/engine/engine.cpp:343-574 | two complete runs of one context whose ties are broken by the same function of the queue history are equal, amplified or not |
| Steering.FirstTopIsFair | src/engine/engine.cpp:130-140 | such a function that always yields an entry none outranks exists |
| Verdicts.GoverningInForce | include/backpressure/model/fence.hpp:129-140 | the governing fence is one that is in force at the resource with a kind none in force outranks and no earlier equal, told on the fields of the fences; there is none exactly when none is in force |
| Verdicts.FencedMeans | src/engine/engine.cpp:388-407 | a resource refuses entry or exit exactly when the fence in force there is of that kind or a barrier |
| Verdicts.HopBoundMeans | src/engine/engine.cpp:477-483 | a hop count is too great exactly when it exceeds the policy limit, a limit of the edge, or a limit of the authority, a zero limit meaning none |
| Verdicts.DampsMeans | src/engine/engine.cpp:522-543 | an edge is damped exactly when its last acceptance lies inside the cooldown and the magnitude does not exceed it by more than the hysteresis delta, capped at full scale |
| Verdicts.CrossMeans | src/engine/engine.cpp:485-543 | what crossing an edge comes to, with every product and quotient written out: missing grant, gain or scale exceeded, below the floor, damped, or carried with exactly this potential and gain |
| Verdicts.RefusalExact | src/engine/engine.cpp:417-543 | a refusal names a reason that applies to the edge, told on its fields, and the first of those that apply in the order in which they are looked for |
| Verdicts.AcceptanceExact | src/engine/engine.cpp:485-566 | an edge is accepted only when no reason applies to it, and then carries exactly the attenuated, amplified pressure and gain |
| Folds.HoppedExact | src/engine/engine.cpp:410-566 | an edge belongs to an admissible walk exactly when it leaves an open resource and no lasting reason blocks it, with potential, gain and depth written out |
| Folds.WalkFolds | src/engine/engine.cpp:485-514 | the potential at the end of a walk is the fold of attenuations and amplifications over its edges, in plain arithmetic; without a grant, of the attenuations alone |
| Folds.SettlementsAreFolds | src/engine/engine.cpp:593-635 | in every run each settled potential and gain is that fold over the edges of the recorded walk; without a grant, of `x * attenuation / 65536` alone |
| Explanations.RefusalsAreTrue | src/engine/engine.cpp:687-757 | every refusal a run writes, truncated or not, is borne out by the edge it gives as its example: the reason applied to that edge when it was considered |
| Explanations.HopsAreLawful | src/engine/engine.cpp:545-566 | every hop a run accepts left a settled resource by one of its edges, was blocked by no lasting reason, and carried exactly the pressure and gain it records |
| Dominance.RunHonoured | src/engine/engine.cpp:551-566 | in every state of every run, amplified or truncated or not, every accepted hop waits in the queue for its open target, or its target settled at least as strongly, or the run ended as its target closed without a record |
| Dominance.SettledDominatesHops | src/engine/engine.cpp:593-615 | at every point of every run, truncated or not, a settled potential is at least that of every accepted hop into the resource |
| Amplification.WalkGain | src/engine/engine.cpp:485-514 | along every admitted walk the tracked gain stays within both grants and covers the potential |
| Amplification.AmplificationBounded | src/engine/engine.cpp:299-306 | every settlement's tracked gain is within the smaller grant, and seed times gain covers its potential up to one part in 65536 per amplifying hop |
| Amplification.AmplificationSlack | src/engine/engine.cpp:485-514 | under a valid policy the truncation slack is at most nine units of gain per amplifying hop, for at most 64 hops |
| Amplification.UnamplifiedNeverRises | src/engine/engine.cpp:485-514 | without a grant nothing settles above the source, also after rounding to a magnitude |
| Worklist.Engine.Top | src/engine/engine.cpp:349-350 | the popped entry is the picker's choice for the queue history; no other entry has a greater potential, nor an equal one and a lesser depth, nor both equal and a lesser node |
| Worklist.Engine.FlushPending | src/engine/engine.cpp:723-747 | the flush loop computes the flush of the machine |
| Worklist.Engine.RejectEdge | src/engine/engine.cpp:687-721 | a refusal updates counters and its pending slot as the machine does |
| Worklist.Engine.SuppressAll | src/engine/engine.cpp:759-775 | closing a resource refuses each of its edges and flushes, as a run of the machine |
| Worklist.Engine.ExpandEntry | src/engine/engine.cpp:409-573 | the edge loop extends the run by exactly the machine's expansion steps |
| Worklist.Engine.Run | src/engine/engine.cpp:264-580 | the traversal terminates on every graph, reports the error of a missing origin or zero magnitude, and otherwise has followed the complete run of its picker, whose final state is its own |
| Damping.RunUndamped | src/engine/engine.cpp:522-543 | no accepted hop of any run was damped by the table the run started from |
| Damping.TableHoldsTopRung | src/engine/engine.cpp:1144-1155 | between committed runs the damping table holds the last committed acceptance over a dependency, or what it held at first when there was none |
| Damping.SessionClimbs | src/engine/engine.cpp:522-543 | over any number of committed runs from any starting table, acceptances on one dependency within the cooldown of the previous one, the one the table held at first included, rise by more than the hysteresis delta |
| Damping.ChainBounded | src/engine/engine.cpp:522-543 | a chain of such acceptances, the one held at first included, starting at m0 has at most (65536 - m0) / (delta + 1) + 1 members |
| Ledgers.DecayBy | include/backpressure/model/policy.hpp:72-91 | the decay loop computes bounded repeated truncated scaling, never below the floor unless it started there and never above the start |
| Ledgers.ScaledExact | include/backpressure/model/policy.hpp:77-79 | one decay step is the product over 65536 with only the fraction of a unit lost |
| Ledgers.DecayComposes | include/backpressure/model/policy.hpp:72-91 | decay by a + b steps is decay by a and then by b, as long as a + b is within the step limit |
| Ledgers.DecayFalls | include/backpressure/model/policy.hpp:72-91 | with a factor below one every decay strictly lowers a magnitude above the floor and stops at the floor |
| Ledgers.FallsIff | src/engine/engine.cpp:1245-1261 | a record above the floor falls in one recovery exactly when a step has elapsed or the residual is lower, and never rises |
| Ledgers.RecoveredExact | src/engine/engine.cpp:1240-1281 | a recovered record is decayed by the whole steps elapsed, at most the step limit, not below a floor it was above, and then no more than the residual; its tick is the call's |
| Ledgers.RecoveryConverges | src/engine/engine.cpp:1240-1281 | any series of calls brings a record to the floor or lower once as many of them came at least one step apart as it stood above the floor |
| Ledgers.RecoveryStarves | src/engine/engine.cpp:1245-1275 | calls less than one step apart with no residual to clamp to never lower a record, however many there are |
| Ledgers.Ledger.MarkLineage | src/engine/engine.cpp:28-39 | a new lineage is appended and the oldest beyond the capacity are forgotten, index and order staying in step |
| Ledgers.Ledger.RecordApplication | src/engine/engine.cpp:54-65 | an application is stored unless it is new and the table is full |
| Ledgers.Ledger.RecordDamping | src/engine/engine.cpp:76-86 | a damping record is stored unless it is new and the table is full |
| Ledgers.Ledger.Recover | src/engine/engine.cpp:1228-1282 | recovery never fails, never raises a record, never changes the key set or another source, and leaves each record of the source at or below the residual with the tick of the call; a dry run changes nothing |
| Ledgers.Ledger.Commit | src/engine/engine.cpp:1127-1156 | a dry or truncated run changes nothing; otherwise lineages are marked, applications stored until one finds no room, and accepted hops damped; the status is ok exactly when every application found room |
| Ledgers.DampedWithRoom | src/engine/engine.cpp:1144-1155 | while the damping table has room, the committed table is the one the damping ladder reasons about |
| Propagation.OutcomesAgree | src/engine/engine.cpp:797-835 | with ties broken one way, one signal has one possible outcome, fingerprint inputs included, amplified or not |
| Propagation.OutcomesIgnoreTies | src/engine/engine.cpp:797-835 | without granted amplification the outcome is the same however ties are broken in either pass |
| Propagation.ReportsAgree | src/engine/engine.cpp:797-835 | a request has one possible report, screening verdicts, traversals and applied amounts included, amplified or not; so a plan and the commit after it agree |
| Propagation.Propagate | src/engine/engine.cpp:841-1161 | a request of any number of signals reports the screening and the complete traversal of each, and what each resource receives, from the ledger and damping table as they were; none, or more than the limit, are refused as such, and a refused signal leaves only its status in the report; a dry run, a truncated run and a request without an accepted signal leave the ledger untouched; a commit marks every fresh lineage, stores the applications in resource order and damps the accepted hops, and succeeds exactly when every application finds room |
| Commitments.BestMeans | src/engine/engine.cpp:617-635 | the source recorded for a resource is that of a part whose arrival no other part's exceeds and every earlier one's falls short of; there is none exactly when no part reached it |
| Commitments.ApplicationsExact | src/engine/engine.cpp:1132-1143 | the applications of a commit are one for each resource that was reached and whose amount is positive, in resource order, of that amount and under that source, and no other |
| Commitments.RoomExact | src/engine/engine.cpp:1132-1143 | every application finds room exactly when the records it adds fit the capacity; the table then holds each applied magnitude at this tick and every other record as it was |
| Commitments.CommittedExact | src/engine/engine.cpp:1127-1143 | after a commit with room exactly the resources reached with a positive amount have a record of that amount under the earliest strongest source, and every other record is as it was |
| Commitments.ContributionMeans | src/engine/engine.cpp:174-182 | a contribution is the arrival rounded to the nearest magnitude, its weighted share truncated and at most full scale |
| Commitments.KeptExact | src/engine/engine.cpp:636-650 | a resource keeps the contributions of the first sixteen parts that reach it, in their order |
| Commitments.StatusExact | src/engine/engine.cpp:1119-1125 | a request with an accepted signal, or without a refused one, succeeds; any other reports the first refusal in screening, or, without one, the first refused traversal |
| Publishing.PublishLocked | src/runtime/fabric.cpp:489-560 | the exact result for one signal, amplified or not: rejected exactly when its report fails; otherwise cancelled exactly when the flag is set; otherwise not journaled, without room, or not confirmed, each exactly when a durable accepted publish meets that; otherwise published as the report says. The ledger holds exactly what the report demands, or what it held. The branch for a commit that disagrees with its plan is unreachable |
| Publishing.PublishBatch | src/runtime/fabric.cpp:568-658 | the same for a request of several signals, which nothing cancels |
| Aggregates.Strongest | src/engine/engine.cpp:190-198 | the loop finds the largest magnitude |
| Aggregates.StrongestWeighted | src/engine/engine.cpp:199-207 | the loop finds the largest weighted magnitude |
| Aggregates.FirstInPriority | src/engine/engine.cpp:208-222 | the loop finds a contribution that none outranks by priority and then magnitude |
| Aggregates.SaturatedSum | src/engine/engine.cpp:223-233 | stopping early at full scale gives the saturated sum of all contributions |
| Aggregates.Combine | src/engine/engine.cpp:184-238 | each rule computes what it is defined to be, and zero for no contribution |
| Aggregates.SeverityExact | src/model/policy.cpp:10-25 | a percentage is the nearest thousandth, and the severity that of the highest threshold it reaches |
| Aggregates.ReportedExact | src/engine/engine.cpp:1105-1107 | a resource that nothing reached reports no severity, and any other that of the amount applied |
| Aggregates.CombinesPermuted | src/engine/engine.cpp:184-238 | under every rule the combined magnitude depends on which contributions there are, not on their order |
| Aggregates.BatchOrderIndependent | src/engine/engine.cpp:1020-1109 | permuting a request, amplified or not and with signals refused at their start, does not change whether a resource receives pressure; where at most sixteen signals arrive it changes neither how much nor the severity, under all four rules |
| Aggregates.ForwardingOrderIndependent | src/engine/engine.cpp:561-562 | nor whether it forwards, amplified or not |
| Aggregates.MaxNeverExceedsSources | src/engine/engine.cpp:1100-1105 | under the strongest-wins rule nothing applied exceeds the strongest source |
| BatchOrder.ReportOrderIndependent | src/engine/engine.cpp:1020-1109 | the same of the reports of a request: permuting valid, fresh signals from distinct sources changes neither who receives nor who forwards, nor the amount where at most sixteen reach |
| Canonical.Sort | src/model/topology.cpp:54-72 | sorting yields a sorted permutation of its input |
| Canonical.SortUnique | src/model/topology.cpp:54-72 | a sequence without ties has exactly one sorted arrangement, whatever procedure sorts it |
| Canonical.EdgesCanonical | src/model/topology.cpp:71-77 | permuted edges pass or fail the duplicate check together and give the same sequence when they pass |
| Canonical.ResourcesCanonical | src/model/topology.cpp:54-60 | the same for resources |
| Canonical.ResourceDuplicatesFound | src/model/topology.cpp:56-60 | the neighbour check finds every duplicate resource identity |
| Canonical.EdgeDuplicatesFound | src/model/topology.cpp:71-77 | in whatever order the edges are given, a duplicate is reported exactly when two edges share an identity and none of another identity lies between them by priority, target and identity |
| Rows.CountDegrees | src/model/topology.cpp:96-103 | the degree array counts the edges of each resource |
| Rows.PlaceOffsets | src/model/topology.cpp:119-122 | offsets are where each row begins |
| Rows.FillRows | src/model/topology.cpp:123-129 | every row holds exactly the edges of its resource in canonical order; no edge is dropped into another row |
| Rows.BucketsPartition | src/model/topology.cpp:119-129 | the rows partition all edge indices |
| Rows.BucketExact | src/model/topology.cpp:328-335 | a row holds exactly the edges leaving its resource, each once, in increasing order |
| Components.VisitInv | src/model/topology.cpp:210-219 | stepping to an unvisited resource keeps the invariants of the component scan |
| Components.SkipInv | src/model/topology.cpp:220-222 | stepping over a visited resource keeps them, low links included |
| Components.ReturnInv | src/model/topology.cpp:224-230 | handing a low link to the frame below keeps them |
| Components.CloseInv | src/model/topology.cpp:231-241 | popping a component keeps them |
| Components.TailIsClass | src/model/topology.cpp:231-243 | what is popped when low link and index meet is exactly one strongly connected component |
| Tarjan.FindCycles | src/model/topology.cpp:178-265 | for every graph the marked resources are exactly those on a directed cycle, self-loops included, and the count is the number of cyclic components |
| TopologyBuild.PermutedInputsAgree | src/model/topology.cpp:33-129 | permuted inputs are accepted or refused together and give the same resource and edge sequences |
| TopologyBuild.RowMembers | src/model/topology.cpp:96-129 | one resource follows another in the graph exactly when some edge leads there |
| TopologyBuild.BuiltValid | src/model/topology.cpp:62-129 | the built index and adjacency satisfy everything the engine relies on |
| TopologyBuild.Build | src/model/topology.cpp:33-289 | building succeeds exactly when limits, validity, the duplicate checks, declared endpoints, degrees and the cycle rule are met on the sorted inputs, whichever procedure sorts them, and otherwise reports the error of the first that is not; the result holds those sequences, a sound index and adjacency, exactly the resources on a cycle and the number of cyclic components; the edges are the given ones, ascending by priority, target and identity as their fields say |
| Faults.FirstFaultExact | src/model/topology.cpp:51-53 | the fault reported is that of the first resource at fault in the order given, and of its first demand not met |
| Faults.FirstEdgeFaultExact | include/backpressure/model/dependency.hpp:101-118 | the same for edges: identities, generation, hop limit and amplifying barriers, in this order |
| TopologyBuild.EdgeDuplicateMissed | src/model/topology.cpp:73-77 | resources and edges that meet every demand of the builder although two of the edges share an identity |
| Bytes.LeRoundTrip | src/core/byteio.cpp:37-70 | little-endian writing then reading gives the value back |
| Bytes.PackUnpack | src/core/byteio.cpp:97-160 | fields that the reader accepts are read back whatever follows them |
| Bytes.UnpackPack | src/core/byteio.cpp:97-160 | only the packing of the values is read as those values |
| Bytes.ByteWriter.Put | src/core/byteio.cpp:37-70 | a field is appended in little-endian order, or refused without effect when it exceeds the capacity |
| Bytes.ByteReader.Get | src/core/byteio.cpp:97-147 | a field is read and the offset advanced, or refused without effect when too few bytes remain |
| TornTail.ParseEncoded | src/store/journal.cpp:192-258 | a record the journal wrote is parsed back whole, whatever follows it |
| TornTail.CutScans | src/store/journal.cpp:192-263 | cutting any readable bytes anywhere leaves exactly the records wholly inside the cut, reported torn exactly when the cut runs through a record |
| TornTail.RepairScansClean | src/store/journal.cpp:264-271 | on any bytes, cutting at the end of what was recovered leaves bytes that scan clean to the same records |
| TornTail.ScanConcat | src/store/journal.cpp:192-258 | clean bytes are read through to whatever follows them |
| TornTail.AppendScans | src/store/journal.cpp:327-365 | a record that continues sequence and chain is recovered after all earlier ones, whoever wrote them |
| TornTail.ScanUnderCap | src/store/journal.cpp:251-255 | the retention limit is the only thing that stops a clean file from opening |
| Integrity.ParseExact | src/store/journal.cpp:192-258 | on any bytes a record is parsed exactly when one stands there: lengths, both limits, checksum of header fields and payload, kind, digest chained from the record before it, and the next sequence number, each told on its offset |
| Integrity.ScanExact | src/store/journal.cpp:189-262 | the scan of any bytes finds records that stand one behind the other, each at its own offset, and ends where no such record begins; it fails exactly when the next one would exceed the retention limit |
| Integrity.RecoveredExact | src/store/journal.cpp:169-273 | a file that opens has a header that stands; every record recovered from it stands, none stands behind them, and the tail is torn exactly when bytes are left over |
| Integrity.RefusedExact | src/store/journal.cpp:169-188 | a file is refused exactly when its header does not stand or the records that stand exceed the retention limit |
| Faults.HeaderFaultExact | src/store/journal.cpp:169-187 | a bad header is reported as truncated, malformed, of another version or corrupted, whichever is looked at first; with a good one only the retention limit stops a file from opening |
| Integrity.WrittenStands | src/store/journal.cpp:327-365 | a record that continues the file is written so that it stands, its reserved bytes zero |
| Integrity.WrittenHeaderStands | src/store/journal.cpp:148-167 | the header that is written stands, its flags zero, its own size in it |
| Journals.CrashRecovers | src/store/journal.cpp:169-273 | a crash that keeps the header and any further prefix loses only records not wholly inside it, and the repaired file opens clean to the same records |
| Journals.CrashedOpensIff | src/store/journal.cpp:169-188 | what a crash leaves of an intact file opens exactly when the header is whole, and otherwise fails as truncated |
| Journals.FreshJournalCanBeLost | src/store/journal.cpp:148-167 | a journal just created may be lost entirely in a crash and then never opens |
| Journals.RepairedFile | src/store/journal.cpp:264-272 | repair is idempotent on every file that opens at all |
| Journals.Journal.ReadRecords | src/store/journal.cpp:189-262 | the replay loop computes the scan of the remaining bytes |
| Journals.Journal.Replay | src/store/journal.cpp:169-273 | replay reports the header or retention error, or recovers the records and truncates the file to them; which those are is told on the bytes by `Integrity` |
| Journals.Journal.Append | src/store/journal.cpp:305-366 | the status is that of the first limit exceeded; on success the file grows by exactly the encoded next record and, when the length fits its field, still opens to all records; refused, nothing changes |
| Journals.Journal.Rewrite | src/store/journal.cpp:385-446 | all limits but the retention limit are checked before the old file is replaced; the new file holds the given contents renumbered and rechained, synced; it opens to them, or, above the retention limit, stays in place and cannot be opened; with a payload too long for its length field it opens to whatever its bytes say |
| Journals.RewrittenOpens | src/store/journal.cpp:385-446 | a rewritten file opens to its contents exactly when their payloads respect the retention limit, and otherwise fails with that limit |
| Journals.UnreadableSticks | src/store/journal.cpp:251-255 | nothing written behind an unreadable part makes a file readable again |
| Journals.LayOut | src/store/journal.cpp:389-429 | the loop lays out the header and every record under fresh numbers and digests, or reports the first limit exceeded |
| Journals.Open | src/store/journal.cpp:275-303 | limits and presence are checked, a missing file is created with an unsynced header, and an existing one replayed and repaired |
| StoreCodec.PolicyCodec | src/store/durable_state.cpp:24-125 | decoding returns a policy exactly for the encoding of a valid policy |
| StoreCodec.FenceCodec | src/store/durable_state.cpp:127-168 | decoding returns a fence exactly for the encoding of a valid fence |
| StoreCodec.PolicyFault | include/backpressure/model/policy.hpp:149-212 | the ordered checks fail for no valid policy and for every other |
| Faults.PolicyFaultExact | include/backpressure/model/policy.hpp:149-212 | the error of an invalid policy is that of the first demand it does not meet, each bound and error written out in the order of the checks |
| StoreRefinement.PairsReplay | src/store/durable_state.cpp:607-616 | live recording of a footprint stops early and replay reads on, yet both end with the same list |
| StoreRefinement.FenceListOps | src/store/durable_state.cpp:262-291 | putting a fence replaces the one with its identity and no other; removing takes that one and no other |
| StoreRefinement.EraseKeeps | src/store/durable_state.cpp:311-313 | erasing from the revalidation or attempt list removes exactly that identity |
| StoreRefinement.ReplayFollows | src/store/durable_state.cpp:230-384 | the record an operation journals replays to the operation's own effect exactly when the operation is sound |
| StoreRefinement.ApplyKeeps | src/store/durable_state.cpp:230-384 | whatever bytes a record carries, replaying it leaves a well-formed state or fails |
| StoreRefinement.ReplayKeeps | src/store/durable_state.cpp:204-214 | every log that replays at all replays to a well-formed state |
| StoreRefinement.PerformTracks | src/store/durable_state.cpp:386-682 | after an operation the log replays from nothing to the new live state exactly when the operation is sound |
| StoreLaws.RefusalsExact | src/store/durable_state.cpp:386-682 | each operation is refused with exactly the error its argument or the state calls for, arguments first: among others a policy no newer than the one of its identity in force, a change before the first epoch, an attempt begun twice; one succeeds without a record exactly when it persists the policy in force |
| StoreLaws.EffectsExact | src/store/durable_state.cpp:386-682 | each written operation changes exactly its own part of the state, told on the lists before and after, and reports exactly this status |
| StoreLaws.PolicyNeverFallsBack | src/store/durable_state.cpp:428-445 | over every run of operations and compactions that persists policies of one identity, the generation in force never falls, and with the same generation it is the same policy |
| StoreLaws.NothingBeforeEpoch | src/store/durable_state.cpp:386-682 | before the first epoch no run of operations writes anything |
| ReplayLaws.ReplayExact | src/store/durable_state.cpp:230-384 | for any bytes, replay accepts a record exactly when it is the encoding of a value the state can take, told kind by kind, and then changes exactly its part of the state; a lineage and a request without room may be followed by anything |
| Faults.IdFaultExact | src/store/durable_state.cpp:278-372 | a fence removal or attempt record that replay refuses fails with the error of the first thing wrong: the sentinel identity, one that is absent or already open, bytes left over |
| Faults.RowFaultExact | src/core/byteio.cpp:97-160 | reading a row stops at the first field that is missing or out of its range, with the error of that field; bytes left over are looked at last |
| Faults.OtherFaults | src/store/durable_state.cpp:262-383 | a fence without a place, a footprint over the limit and an unknown kind fail with these errors |
| Compaction.CompactedReplays | src/store/durable_state.cpp:686-790 | the compacted log replays to the live state, with the epoch in force also as the previous one |
| Compaction.RunTracks | src/store/durable_state.cpp:204-790 | from the empty store, after any run of operations and compactions in which operations are sound and compactions respect the retention limit, the log opens and replays to the live state |
| Compaction.CompactionOpensIff | src/store/durable_state.cpp:686-797 | a compaction leaves a store that opens exactly when the compacted payloads respect the retention limit |
| Compaction.CompactionCanLoseTheStore | src/store/durable_state.cpp:792-797 | a store that opens and, compacted, never opens again |
| Compaction.UnsoundSticks | src/store/durable_state.cpp:204-214 | once a log cannot be replayed no further operation mends it; only a compaction rewrites it |
| Compaction.FenceAtCapacityUnreplayable | src/store/durable_state.cpp:481-495 | a fresh fence at capacity is refused after its record is written, and that record cannot be replayed |
| Compaction.ClearingSentinelUnreplayable | src/store/durable_state.cpp:565-582 | clearing the sentinel resource succeeds and writes a record that cannot be replayed |
| DurableStores.CrashedStoreOpens | src/store/durable_state.cpp:170-214 | the journal of a crashed store opens exactly when the surviving prefix holds the header, and the store then opens to the replay of the records wholly inside it |
| DurableStores.DurableStore.ReplayRecords | src/store/durable_state.cpp:204-214 | opening rebuilds the state by applying every record, or reports the first failure |
| DurableStores.DurableStore.Execute | src/store/durable_state.cpp:386-682 | an operation that the state forbids fails with exactly that error and changes nothing; a written one extends the log by its record, has exactly its effect, is synced unless it records a lineage, and keeps the store replayable exactly when it is sound; a policy no newer than the one of its identity in force is never written, and succeeds exactly when it is that one |
| DurableStores.DurableStore.CompactJournal | src/store/durable_state.cpp:686-790 | limits checked first leave the journal as it was; within the retention limit the journal is the compacted log, synced and replayable; above it the compaction fails and the file left behind does not open |
| DurableStores.DraftsExact | src/store/durable_state.cpp:686-790 | the records a compaction writes bear tick zero and the kinds, epochs and payloads of the compacted log |
| FabricCrash.CrashSafety | src/runtime/fabric.cpp:226-246 | over every run of opens, publishes, maintenance, compactions and crashes, epochs in force strictly increase and every part of the log that may survive opens again, with every committed lineage that no newer one has evicted, every committed attempt closed unless begun again, and every attempt found unfinished still unfinished |
| FabricCrash.ForgottenOnlyByEviction | src/store/durable_state.cpp:216-228 | whenever a committed lineage is no longer promised, some step recorded a new lineage in a full list in which it was the oldest; recordings that a crash lost do not count |
| FabricCrash.KeptWhileRecent | src/store/durable_state.cpp:216-228 | a committed lineage among the n most recent of whatever may survive stays promised while no more lineages are recorded than there is room for behind it |
| FabricBytes.StepBacks | src/store/journal.cpp:305-446 | every step of the protocol, carried out on the file, leaves an intact file that stands for the log, with the synced part standing for the synced log; a cut through a record is a crash that loses that record |
| FabricBytes.CrashSafetyOnBytes | src/runtime/fabric.cpp:198-254 | from a journal just created, after every run whose crashes kept the header, a crash that leaves n bytes leaves a fabric that opens exactly when the header is whole, to a state that keeps every promise above; once an epoch has come into force the header always survives |
| FabricCrash.RunKeeps | src/runtime/fabric.cpp:512-555 | every step of the protocol keeps its invariant, for every prefix that may survive; a compaction replaces the log and must respect the retention limit |
| FabricRuns.OpenSucceeds | src/runtime/fabric.cpp:198-254 | a fabric whose log opens, with room for two records, comes up: the next epoch and the boot are recorded and synced, and the attempts found unfinished are noted |
| FabricRuns.PublishSucceeds | src/runtime/fabric.cpp:512-555 | a publish with room records its attempt, lineage and commit in this order, synced; the lineage is then promised and the attempt closed |
| FabricRuns.PublishAborts | src/runtime/fabric.cpp:512-555 | an aborted publish leaves two records and the state as it was, and promises nothing |
| FabricRuns.RefusedSteps | src/runtime/fabric.cpp:512-555 | when the journal refuses a step, opening ends without a process, a publish goes back to idle, and the log is as it was |
| FabricRuns.MaintenanceSucceeds | src/store/durable_state.cpp:386-682 | a maintenance operation the store accepts is written, synced and takes effect |
| FabricRuns.CrashAndCompact | src/store/durable_state.cpp:686-797 | a crash ends the process and keeps any part of the log not shorter than the synced one; a compaction leaves the compacted log, synced, and the process as it was |
| Tickets.TicketSafety | src/runtime/fabric.cpp:776-942 | in every interleaving the ticket map stays within its bound, no ticket is both cancelled and committed, a cancelled ticket never changed the ledger, one cancelled while pending never completes, and accepted jobs are queued, active, completed or discarded |
| Tickets.CompletedIsFinal | src/runtime/fabric.cpp:793-797 | a completed ticket is unchanged until it is forgotten |
| Tickets.OverForever | src/runtime/fabric.cpp:834-886 | a job that is over is never revived and its ticket does not come back |
| Tickets.AdmissionRefusedOnlyWhenBusy | src/runtime/fabric.cpp:807-832 | the oldest settled ticket is reclaimed before refusing: admission is refused only when the map is full and every ticket in flight |
| Tickets.NoLostReports | src/runtime/fabric.cpp:75-82 | a reporting job always finds its running ticket, and the worker never meets a queue it must drop itself |
| TicketRuns.CancelledOnRequest | src/runtime/fabric.cpp:926-942 | in every interleaving a ticket is reported cancelled only if its cancellation was asked for while it existed |
| TicketRuns.ServedJob | src/runtime/fabric.cpp:799-886 | a job that nobody cancels is served: its ticket reports success, failure and commitment exactly as its publish ended, and it counts as having changed the ledger exactly when the publish did |
| TicketRuns.CancelledWhilePending | src/runtime/fabric.cpp:926-942 | a job cancelled while pending is reported cancelled and never publishes |
| TicketRuns.Decides | src/runtime/fabric.cpp:844-885 | a flag set before the job looks cancels it; one set later counts only at the boundary of the publish |
| TicketRuns.Reclaims | src/runtime/fabric.cpp:807-832 | a full map forgets the oldest settled ticket, and only that, for the new one; with every ticket in flight only the identity is used up |
| TicketRuns.TurnedAway | src/runtime/fabric.cpp:888-896 | a job that the pool turns away leaves neither ticket nor place in the order |
| TicketRuns.OnRequest | src/runtime/fabric.cpp:909-942 | cancelling marks the flag and settles the ticket only while pending; releasing forgets a settled ticket and no other |
| TicketRuns.TakenInOrder | src/runtime/fabric.cpp:63-100 | jobs are taken in the order in which they were queued, and none once the pool discards |
| TicketRuns.Stopping | src/runtime/fabric.cpp:134-176 | shutting down only refuses later jobs; aborting discards every queued one, counts them all, and touches no ticket |
| AsyncPublishing.VerdictsPossible | src/runtime/fabric.cpp:865-885 | each way a publish can end gives a verdict the ticket protocol allows for, and the ticket the protocol has the job report |
| AsyncPublishing.PublishJob | src/runtime/fabric.cpp:857-886 | a job reports exactly the ticket that the exact result of its publish calls for; the ledger holds what the report demands exactly when the verdict says it changed and is untouched otherwise; a flag set in time leaves it untouched, nothing committed and nothing completed; a ticket is cancelled only with the flag set |

## Left out

- Sockets, frames, subprocesses and the command line.
- File locking, temporary files and the mechanics of fsync and rename: a crash keeps the synced prefix, and replacing a
  file is atomic.
- Digest mixing and checksums: uninterpreted functions; where the code compares policy digests the model compares
  policies.
- Failing file calls: a journal may refuse a record because of a limit, but reads, writes and syncs succeed.
- Journals.Journal.Append: a payload of 4 GiB or more is written with its length truncated to 32 bits; that the file still
  opens is promised only below.
- DurableStores.DurableStore.Execute: the store is configured with its journal's limits, records below 4 GiB and at least
  one lineage slot.
- StoreRefinement.PerformTracks: assumes at least one lineage slot; with none the code pops an empty queue. Counters of
  evictions, overflows, commits and aborts are not modelled: compaction drops them.
- Shortfalls.ValidPolicyCanTruncate: the partner bound is sufficient, not necessary; whether a smaller budget truncates
  depends on the run.
- Shortfalls.HopLimitLosesDescendants: the partner conditions are sufficient; under binding limits a run may still happen
  to be optimal.
- Publishing.PublishLocked: publisher registration, topology and epoch checks before planning are not modelled.
- Propagation.Propagate: the validity of a signal by itself is an arbitrary verdict; the checks of policy, topology, epoch
  and pins on the request are not modelled; resources stand in the order of their identities, as the builder leaves them.
- FabricCrash.CrashSafety: maintenance operations are sound and compactions respect the retention limit; what happens
  otherwise is stated by the lemmas named above.
- FabricBytes.CrashSafetyOnBytes: the same, with records below 4 GiB; crashes inside the run keep the header, since
  without it nothing opens again.
- Tickets.TicketSafety: threads, condition variables and liveness of draining and shutdown are not modelled, nor is
  restarting a pool.
- TopologyBuild.Build: names, classes and provenance of resources, issue lists and statistics other than the cycle
  results; edge counts are assumed to fit 32 bits. `std::sort` is any procedure that sorts.
- Traversal stamps and their reuse between runs: a fresh state per run.
- Per-reason counters, severities other than the one reported per resource, explanation paths and contribution
  provenance.
- Authority expiry, the barrier and provisional edge flags and coverage of the origin: the engine does not consult them.
- The synthetic benchmark, clocks, random numbers and name interning.
