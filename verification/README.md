# Verified models of RunnelMoE

RunnelMoE streams the experts of a sparse model from disk through a page cache. This project models
its cache policies, replay kernel, trace generator, BF16 kernels, canonical manifest, paged tensors
and incremental decoder in Dafny and proves what each promises, on all inputs.

- **Cache policies.** `CacheModel` states one event of LRU, SLRU, TinyLFU and router-admit over pages
  of any size with a declarative victim set; `CacheSimulator` holds the loops and mutable state proved
  against it; `TinyLfu` the sketch. `LruTheory`, `LruCapacity`, `SegmentedTheory` and `RouterScores`
  prove theorems over whole runs; `TraceParser` the acceptance rules.
- **Oracles.** `Belady` proves the farthest-use replay optimal for equal pages; `ExactOracle`, over the
  bit masks of `Masks`, proves the subset search optimal for pages of any sizes; `OracleAgreement` that
  the two agree where both apply.
- **Replay kernel.** `Kernel` is the imperative kernel against a policy about which nothing is assumed
  beyond `Discreet` (a hit moves no page and changes no size or flag). `Accounting` is the meaning of
  its decision log, `DecisionLog` the byte encoding with a decoder, `KernelAudit` what follows for an
  outside verifier: the hashed stream fixes the whole report of a completed run. `LogCounts` reads every
  counter, the residents and the peak off the records.
- **Online policies.** `OnlinePolicy` is the policy state of the Rust simulator in its own form:
  `ByteSketch` (packed doorkeeper), `RouterSignals` (nested signals with a metadata ledger), entries with
  segments, plans from sorted scans (`Sorting`). `PolicyRefinement` proves each part against the Python
  reference of `CacheModel`, and `PolicyAgreement` that on every accepted trace the kernel driven by these
  policies and the reference agree. `PrefetchPlanning` is the planner for prefetched groups.
- **Trace generator.** `Sampling` (fair draws and shuffle from an arbitrary word stream), `Routes` with the
  law of each family in `RouteLaws`, `Predictor` (aged counts that never saturate, and exactly what they
  foretell), `TraceGenerator` (accepted by both validators), `TraceMeaning` (what a trace tells) and
  `TraceText` (the canonical lines, their uniqueness and their size).
- **Numerics.** `Bf16` works on bit patterns with real values; `Gemv` bounds both summation orders for
  any rounding operator with relative error u and product underflow, then for single precision.
- **Format.** `CanonicalJson` (writer, strict parser, one spelling), `JsonSpelling` (the text) and `Coverage` (exact cover and
  page-wise reassembly).
- **Decoding.** `Decoding` and `IncrementalDecoding` prove the cached loop equal to full recomputation by
  the reference, which `ReferenceModel` states as equations of its own between the values of a pass,
  for an arbitrary scalar type with arbitrary operations, so also for rounded ones; norms, projections,
  single experts and `exp` are arbitrary functions. Only the comparison with a masked full pass asks laws of
  the scalars, about zeros, minus infinity and non-finite values; `Decoding.ExactObeys` shows them consistent.
- `Common` holds the names several models share, `Totals` the sums over finite sets behind all ledgers.

## How faithful the models are

- Counters are unbounded naturals with every 64-bit check written out; page identifiers and sequence
  numbers get their widths where they are encoded, and `KernelAudit.RunFits` shows that a replay of a
  trace in those widths writes only records that fit.
- A larger LRU cache is often said never to do worse. With pages of different sizes that is false of
  the code exactly where `LruCapacity.NoPollution` fails: where some group filling the smaller cache can
  be pushed out of the larger one by pages that only the larger one admits. `LruCapacity.PollutingTrace`
  gives the trace; `LruCapacity.InclusionExactly`, `LruCapacity.HitsNeverFallExactly` and
  `LruCapacity.LoadsNeverRiseExactly` prove the condition exact for residents, hits and loaded bytes.
- The exact oracle reports an overflow whenever the bytes of all demands pass 64 bits, even where the
  optimum itself would fit, because it also costs serving without a cache; the contract says so.
- That oracle visits its frontier in mask order. The model takes any order; only which of two errors is
  named, where both apply, could depend on it.
- The source's defensive errors that the proofs show unreachable (identity mismatch, ledger and budget
  underflow, re-insertion) keep their constructors in `Kernel.SimError`; `Kernel.Genuine` lists the
  errors that remain.
- To the kernel a policy is a stream of answers, one per call, so it may depend on anything.
  `PolicyAgreement.AnswersTo` computes that stream from the policy's own state and the kernel's entries
  and ledger as the trace goes on.
- The Python reference lets non-finite values run on and checks scores and logits; `ReferenceModel` asks for
  finite values wherever the runtime checks them. It adds every sum from the left, an order that the
  tensor library leaves open.
- The page catalogue of the kernel gives a geometry for every identifier; a validated trace only names
  known ones.

## Model

| member | source | states |
|---|---|---|
| `CacheModel.VictimsMakeRoom` | oracle/cache_policy.py:680-712 | the planned victims (each resident whose predecessors in eviction order free too little) always leave room for the candidate |
| `CacheModel.RebalancedWithinTarget` | oracle/cache_policy.py:604-622 | after rebalancing the protected bytes are at most the target |
| `CacheModel.StepKeepsInv` | oracle/cache_policy.py:595-602 | every event keeps ledger = sum of resident charges <= capacity, the counter identities and the segment discipline, so no consistency failure can be raised |
| `CacheModel.Run` | oracle/cache_policy.py:624-780 | the state after any event sequence satisfies the whole invariant |
| `CacheSimulator.SortResidents` | oracle/cache_policy.py:680-698 | the residents in strictly increasing victim-key order, each once |
| `CacheSimulator.PlanVictims` | oracle/cache_policy.py:680-712 | the loop that stops once enough bytes are released returns exactly the declarative victim set |
| `CacheSimulator.Admissible` | oracle/cache_policy.py:714-742 | the TinyLFU and router density tests, as a comparison of totals over the victim set |
| `CacheSimulator.Simulator.RebalanceProtected` | oracle/cache_policy.py:604-622 | demoting the oldest protected page one at a time terminates and demotes exactly the pages the declarative rule names |
| `CacheSimulator.Simulator.HandleDemand` | oracle/cache_policy.py:643-767 | one demand moves the mutable state to the model state after that demand, or reports the load-counter overflow |
| `CacheSimulator.Simulate` | oracle/cache_policy.py:544-780 | the whole replay returns the metrics of the model run; it refuses exactly the arguments out of range and otherwise fails only when the loaded bytes pass 2^64 - 1 |
| `TinyLfu.TinyLfuSketch.Observe` | oracle/cache_policy.py:492-511 | doorkeeper, conservative increment and aging in place give the pure next sketch |
| `TinyLfu.EstimateDominatesPrivate` | oracle/cache_policy.py:485-511 | over any run of observations and agings the estimate is at least an exact private counter (one bit, saturating at 15, halved at the same points) and at most 16 |
| `TinyLfu.EstimateCountsWindow` | oracle/cache_policy.py:485-511 | within one aging window the estimate is at least min(observations, 16) |
| `LruTheory.LruIsReuseDistance` | oracle/cache_policy.py:624-767 | under LRU, after every trace, a page is resident exactly when it fits, was demanded, and the distinct fitting pages demanded since then (itself included) total at most capacity; its recency is its last demand |
| `LruCapacity.InclusionExactly` | oracle/cache_policy.py:656-767 | residents of the smaller LRU cache are always contained in the larger one, on every trace, if and only if no group filling the smaller cache can be pushed out of the larger one by pages only the larger one admits |
| `LruCapacity.AllFitMeansNoPollution` | oracle/cache_policy.py:673-678 | if every page fits the smaller capacity that condition holds |
| `LruCapacity.MoreCapacityNeverHurts` | oracle/cache_policy.py:656-767 | under the condition hits never fall and loaded bytes never rise as capacity grows, at every point of every trace |
| `LruCapacity.HitsNeverFallExactly` | oracle/cache_policy.py:656-767 | hits never fall on any trace if and only if the condition holds |
| `LruCapacity.LoadsNeverRiseExactly` | oracle/cache_policy.py:656-767 | with positive page sizes loaded bytes never rise on any trace if and only if the condition holds |
| `LruCapacity.PollutingTrace` | oracle/cache_policy.py:673-678 | where the condition fails, a concrete trace on which the smaller cache keeps a page the larger one lost |
| `LruCapacity.TwoPagesPollute` | oracle/cache_policy.py:673-678 | two pages of charges 1 and 2 under capacities 1 and 2 already make the condition fail |
| `SegmentedTheory.HitNeverDemotesItself` | oracle/cache_policy.py:659-671 | promotion and rebalancing keep every resident, never demote the page just hit, touch only protected pages and end within the target |
| `SegmentedTheory.ScanResistance` | oracle/cache_policy.py:680-762 | any run of misses on pages of charge at most capacity minus target leaves every protected entry exactly as it was |
| `SegmentedTheory.ZeroTargetSlruIsLru` | oracle/cache_policy.py:579-585 | SLRU with a zero protected target replays every trace with the residents, touches and metrics of LRU |
| `SegmentedTheory.SilentRouterIsSlru` | oracle/cache_policy.py:625-640 | router-admit replays every trace whose predictions fall below the minimum score exactly as SLRU does |
| `TraceParser.CheckCatalogue` | oracle/cache_policy.py:277-328 | the one-pass check accepts exactly the dense, sane catalogues of a positive 64-bit quantum without a repeated expert page |
| `TraceParser.CheckPredictions` | oracle/cache_policy.py:390-420 | accepts exactly lists of at most 16 distinct known experts whose scores total at most one million |
| `TraceParser.CheckEvents` | oracle/cache_policy.py:330-438 | the pass with running dictionaries accepts exactly the streams that are dense, never go back in a request, signal only strictly future steps once per layer, and realise every target |
| `RouterScores.SelectedAreBest` | oracle/cache_policy.py:625-640 | a signal keeps the best qualified predictions: kept and dropped ones are all of them, and no dropped one ranks before a kept one |
| `RouterScores.RetainedExactly` | oracle/cache_policy.py:625-652 | on an accepted trace, at every point, a score entry is retained exactly when its signal selected something and no later step of its request was demanded, and it holds exactly the selected scores of that signal |
| `RouterScores.RetentionSafety` | oracle/cache_policy.py:351-388 | on an accepted trace no retained entry targets a step below its request's latest demand, none is ever overwritten, and at the end only final demanded steps remain |
| `Belady.FarthestVictim` | crates/runnel-sim/src/oracle/mod.rs:312-331 | the page with the farthest next use among residents and candidate, by the source's tie rule |
| `Belady.FutureDemands` | crates/runnel-sim/src/oracle/mod.rs:287-297 | the index lists every page's future positions in order |
| `Belady.BeladyIsOptimal` | crates/runnel-sim/src/oracle/mod.rs:34-145 | at every prefix of every demand sequence the farthest-use policy misses at most as often as any demand-driven schedule with the same number of slots |
| `Belady.BeladyIsASchedule` | crates/runnel-sim/src/oracle/mod.rs:34-145 | it is itself such a schedule, so its miss count is the minimum |
| `Belady.SimulateBelady` | crates/runnel-sim/src/oracle/mod.rs:34-145 | the replay refuses exactly the geometries that are not uniform; it succeeds exactly when demands times page bytes and evictions times page charge both fit 64 bits; then it reports the optimum miss count, the evictions of the replay and balanced byte and charge counters |
| `Belady.UniformGeometry` | crates/runnel-sim/src/oracle/mod.rs:260-285 | one positive charge and one logical size for all pages, or a refusal; an empty catalogue loads nothing |
| `Belady.EvictedChargeOverflows` | crates/runnel-sim/src/oracle/mod.rs:110-115 | five one-byte demands that replace two pages of charge 2^63: the evicted charge overflows although the demanded bytes fit |
| `Masks.NextSubmask` | crates/runnel-sim/src/oracle/mod.rs:233-247 | no submask of the state lies between one and the next that (r - 1) & state gives, so the descending loop meets every one |
| `Masks.LowestCleared` | crates/runnel-sim/src/oracle/mod.rs:386-397 | r & (r - 1) clears the lowest set bit and no other |
| `ExactOracle.SubsetCharge` | crates/runnel-sim/src/oracle/mod.rs:386-397 | the bit loop returns the total charge of the pages a mask names, or an overflow exactly when it leaves 64 bits |
| `ExactOracle.AdmitAll` | crates/runnel-sim/src/oracle/mod.rs:232-248 | on a miss every subset of the state is looked at and charged to the budget once; each that leaves room for the page is recorded at no more than its cost, and no entry costs less than some schedule ending there |
| `ExactOracle.Advance` | crates/runnel-sim/src/oracle/mod.rs:213-251 | one demand turns a frontier into the next: each entry is the cost of a real schedule and every schedule is matched by an entry that holds at least its pages for at most its cost; the budget grows by exactly the number of transitions |
| `ExactOracle.KeepsDominating` | crates/runnel-sim/src/oracle/mod.rs:207-210 | deferring every eviction to an admission loses nothing: a frontier that matches all schedules still does after any demand |
| `ExactOracle.ExactVariableByteCost` | crates/runnel-sim/src/oracle/mod.rs:154-258 | for pages of any charges and sizes: it answers exactly when the demand, page and transition limits hold and the bytes of all demands fit 64 bits, and then its answer is the least loaded bytes over every demand-driven schedule within the capacity; otherwise it names a limit or the overflow that really failed |
| `ExactOracle.OverflowThoughOptimumFits` | crates/runnel-sim/src/oracle/mod.rs:225-227 | two demands of one page of 2^63 bytes: the optimum fits 64 bits and still the search reports an overflow |
| `OracleAgreement.OraclesAgree` | crates/runnel-sim/tests/oracles.rs:119-153 | on pages of one size the least cost over all schedules is the misses of the farthest-use replay times the page bytes |
| `Kernel.BumpTally` | crates/runnel-sim/src/metrics.rs:43-49 | checked addition of an event and its bytes: the exact sum, or an overflow exactly when one of the two leaves 64 bits |
| `Kernel.FinishOnlyOverflows` | crates/runnel-sim/src/metrics.rs:51-120 | on counters that conserve, none of the identity errors can occur; the only error is an overflow of the total physical load |
| `Kernel.Kernel.Evict` | crates/runnel-sim/src/engine.rs:127-156 | removes a resident, counts an unused prefetch as wasted, and the ledger subtraction never underflows |
| `Kernel.Kernel.Insert` | crates/runnel-sim/src/engine.rs:158-196 | adds an absent page within capacity and tracks the peak; re-inserting a resident page is reported |
| `Kernel.Kernel.HandleDemand` | crates/runnel-sim/src/engine.rs:198-287 | whatever the policy plans, a demand moves the clock on by one, adds exactly one decision and leaves exactly the residents, with recency, segment and flag, that the hit, bypass or victim plan leads to |
| `Kernel.Kernel.PrefetchGroup` | crates/runnel-sim/src/engine.rs:289-435 | one decision per group: dropped for pages only if it has more than are left, for bytes only if its pages fit and its bytes do not, admitted exactly if both fit and the policy names victims; the budgets fall by what was admitted and the residents and the clock are those the decision leads to |
| `Kernel.FilledAt` | crates/runnel-sim/src/engine.rs:397-407 | each page of an admitted group is resident with its sizes, the tick of its place in the group and an unused flag |
| `Kernel.Kernel.HandleSignal` | crates/runnel-sim/src/engine.rs:437-488 | one decision per ranked group while pages are left; every decision of a signal follows from the configured limits less what the earlier records of the signal admitted, and from the policy's next answer; loads stay within the limits and entries no decision names are untouched |
| `Kernel.Kernel.HashEvent` | crates/runnel-sim/src/engine.rs:69-92 | appends exactly the encoding of the decision to the hashed stream |
| `Kernel.Kernel.HashPrefetchDecision` | crates/runnel-sim/src/engine.rs:94-125 | appends exactly the encoding of the prefetch decision to the hashed stream |
| `Kernel.Kernel.WriteOff` | crates/runnel-sim/src/engine.rs:508-516 | counts every unused resident prefetch as wasted; no counter can overflow there |
| `Kernel.Kernel.HandleAll` | crates/runnel-sim/src/engine.rs:490-507 | the log tells the demands in order, and for a policy that does not prefetch residents, clock, questions asked and decisions are one function of the trace and the answers |
| `Kernel.Simulate` | crates/runnel-sim/src/engine.rs:490-523 | for every trace and every policy: the report is the one its decision log accounts for, the log tells exactly the demands of the trace in the trace's own integer widths, and the only failures are 64-bit overflow or a policy that fails or plans badly (only overflow when its answers can be carried out); no identity, ledger, budget or re-insertion error is reachable |
| `Accounting.ReplayConserves` | crates/runnel-sim/src/engine.rs:127-435 | over every legal decision log: hits + misses = demands, admitted + redundant + dropped = offered, useful + wasted + still unused = admitted, admissions = evictions + residents, ledger = total resident charge <= peak <= capacity |
| `Accounting.UniformReplay` | scripts/run_m3_experiment.py:918-933 | with one page size every byte counter is its event counter times that size and the residency is (admissions - evictions) pages |
| `Accounting.PeakAligned` | scripts/run_m3_experiment.py:934-941 | with one page size the peak is page-aligned |
| `Accounting.ChargesConserved` | crates/runnel-sim/src/engine.rs:139-196 | every byte of charge that entered the cache is either still resident or counted as evicted |
| `KernelAudit.TraceDemandsReported` | crates/runnel-sim/src/engine.rs:198-213 | the reported demand counters are the number and the bytes of the demands of the trace |
| `KernelAudit.ReportAgrees` | scripts/run_m3_experiment.py:868-916 | every report of a completed replay passes the verifier's general identities |
| `KernelAudit.UniformReportAgrees` | scripts/run_m3_experiment.py:918-941 | with equal pages it passes the fixed-page identities, final residency and peak alignment |
| `KernelAudit.NoPrefetchActivity` | scripts/run_m3_experiment.py:944-945 | a replay without prefetch decisions reports no prefetch activity |
| `KernelAudit.ReportTallies` | crates/runnel-sim/src/metrics.rs:5-42 | every counter of the report is a tally of the pages the decisions name: hits, first uses, misses, bypasses, offers, repeats, admissions, drops and victims, in events and in bytes |
| `LogCounts.CountersTell` | crates/runnel-sim/src/engine.rs:127-435 | the same for the accounts of every legal log, by one record at a time |
| `LogCounts.ResidentsTold` | crates/runnel-sim/src/engine.rs:127-196 | after every legal log a page is resident exactly when it entered and no later record names it as a victim |
| `LogCounts.PeakIsHighest` | crates/runnel-sim/src/engine.rs:158-196 | the reported peak is reached by the ledger of some prefix of the log and passed by none |
| `DecisionLog.Decode` | crates/runnel-sim/src/engine.rs:69-125 | a total decoder: whatever it accepts re-encodes to the same stream, as records that fit their fields; that it accepts every encoding is DecisionLog.DecodeEncode |
| `DecisionLog.DecodeEncode` | crates/runnel-sim/src/engine.rs:69-125 | decoding the stream of any decisions gives them back, across both record layouts |
| `DecisionLog.StreamDetermines` | crates/runnel-sim/src/engine.rs:235-285 | two logs have equal streams exactly when they are equal |
| `DecisionLog.KindBack` | crates/runnel-sim/src/engine.rs:330-420 | no two of the twelve decision tags can be confused |
| `DecisionLog.WordIsLittleEndian` | crates/runnel-sim/src/engine.rs:69-103 | numbers are hashed little-endian: byte i is the number divided by 256^i, modulo 256 |
| `KernelAudit.StreamFixesReport` | crates/runnel-sim/src/engine.rs:490-523 | two completed replays over one catalogue with equal streams, under any two policies, capacities, groups and traces, took the same decisions, replayed the same demands and report the same counters but for the two metadata figures of their policies |
| `KernelAudit.StreamTellsDemands` | crates/runnel-sim/src/engine.rs:235-285 | the decisions of a completed replay, and with them the demands of its trace in order, can be read back from the stream |
| `KernelAudit.RunFits` | crates/runnel-sim/src/engine.rs:69-125 | every record of a legal log over 64-bit sequence numbers and 32-bit pages can be encoded without loss: victims are distinct residents, and residents were demanded or offered |
| `ByteSketch.SameObserved` | crates/runnel-sim/src/policy/mod.rs:161-187 | one observation on a bit-packed doorkeeper and flat counters is one observation of the reference sketch: same bits, same conservative increments, same aging |
| `ByteSketch.SameEstimate` | crates/runnel-sim/src/policy/mod.rs:153-159 | the byte sketch estimates every page as the reference sketch does |
| `ByteSketch.PackedSketch.Observe` | crates/runnel-sim/src/policy/mod.rs:161-187 | the byte masks and counter loops give exactly the next packed sketch |
| `ByteSketch.PackedSketch.Estimated` | crates/runnel-sim/src/policy/mod.rs:153-159 | the row loop returns the least counter, plus one for a set doorkeeper bit |
| `RouterSignals.SignalLedger.EnterDemandStep` | crates/runnel-sim/src/policy/mod.rs:296-332 | the ordered take-while over a request, its removals and its ledger give the next nested state: every earlier step of the request is gone and an emptied request map with it, or the underflow is reported |
| `RouterSignals.SignalLedger.RecordSignal` | crates/runnel-sim/src/policy/mod.rs:334-391 | the insert loops give the next nested state, refusing a duplicate expert, a duplicate signal and bytes past the ceiling as the source does |
| `RouterSignals.EnteredMirrors` | crates/runnel-sim/src/policy/mod.rs:296-332 | entering a step keeps the nested signals the same table as the flat scores of the reference |
| `RouterSignals.RecordedMirrors` | crates/runnel-sim/src/policy/mod.rs:334-391 | recording a selection keeps them the same table |
| `RouterSignals.RouterMetadataLimit` | crates/runnel-sim/src/engine.rs:526-551 | the counting loop returns the metadata ceiling, or an overflow exactly when it leaves 64 bits |
| `RouterSignals.CeilingFits` | crates/runnel-sim/src/engine.rs:526-551 | no accepted trace has a metadata ceiling beyond 64 bits |
| `RouterSignals.LedgerExact` | crates/runnel-sim/src/policy/mod.rs:296-391 | at every point of every accepted trace no duplicate, underflow or ceiling error has occurred, the live ledger is the bytes of the retained signals, the recorded bytes are the ceiling of the events so far, and the nested signals are the scores of the reference |
| `RouterSignals.MetadataExact` | crates/runnel-sim/src/policy/mod.rs:653-706 | after every accepted trace the recorded bytes are the precomputed ceiling to the byte, live bytes <= peak <= ceiling, and no closing check can fail |
| `RouterSignals.PeakIsHighest` | crates/runnel-sim/src/policy/mod.rs:334-391 | the reported metadata peak is reached by the bytes retained after some event and passed after none |
| `RouterSignals.LiveBytesAre` | crates/runnel-sim/src/policy/mod.rs:26-37 | the live bytes are 24 for every retained signal and 8 for every retained score |
| `OnlinePolicy.SketchBytes` | crates/runnel-sim/src/policy/mod.rs:189-191 | a sketch closes with depth times width plus one eighth of the width, rounded up |
| `RouterSignals.SignalLedger.FinishMetadata` | crates/runnel-sim/src/policy/mod.rs:653-706 | the recount of the retained signals and the closing checks succeed exactly on a ledger that is sound and used up its ceiling |
| `OnlinePolicy.Rebalance` | crates/runnel-sim/src/policy/mod.rs:443-467 | the demotion loop terminates with the rebalanced entries |
| `OnlinePolicy.OnHit` | crates/runnel-sim/src/policy/mod.rs:416-441 | a hit refreshes the entry, promotes it where it fits the target and rebalances |
| `OnlinePolicy.AdmitDemand` | crates/runnel-sim/src/policy/mod.rs:531-585 | the density tests over the victims with 128-bit products, or the overflow |
| `OnlinePolicy.PlanDemandVictims` | crates/runnel-sim/src/policy/mod.rs:480-530 | the sorted scan with its early returns gives the plan, from the state of the policy and the entries and ledger of the kernel alone |
| `PolicyRefinement.RebalancedView` | crates/runnel-sim/src/policy/mod.rs:443-467 | demoting one oldest entry at a time leaves exactly the segments and recencies of the declarative rule of the reference |
| `PolicyRefinement.AfterHitView` | crates/runnel-sim/src/policy/mod.rs:416-441 | a hit on the entries is a hit of the reference |
| `PolicyRefinement.PlannedVictims` | crates/runnel-sim/src/policy/mod.rs:496-523 | the prefix of the sorted entries that frees enough is exactly the declarative victim set of the reference, each page once |
| `PolicyRefinement.SameAdmits` | crates/runnel-sim/src/policy/mod.rs:531-585 | on a catalogue within its limits no 128-bit product overflows and the candidate passes exactly when it passes the test of the reference |
| `PolicyRefinement.DemandPlanIs` | crates/runnel-sim/src/policy/mod.rs:480-530 | wherever the own state of the policy tracks the reference, the planner declines exactly the misses the reference declines and otherwise names exactly its victims |
| `PolicyAgreement.PolicyTracks` | crates/runnel-sim/src/policy/mod.rs:220-271 | a policy started from its specification is, at every point of every accepted trace, without error and in the sketch or signals of the reference |
| `PolicyAgreement.ReplaysAgree` | crates/runnel-sim/tests/python_differential.rs:131-170 | at every point of every accepted trace, under LRU, SLRU, TinyLFU and router-admit, the kernel with the answers its own policy computes has the residents, recencies, segments, ledger and counters of the independent reference, and no answer fails |
| `PolicyAgreement.PolicyReliable` | crates/runnel-sim/src/engine.rs:490-523 | on every accepted trace each plan of the policy names residents once and makes room, so by Kernel.Simulate a replay can fail only on a counter beyond 64 bits |
| `PolicyAgreement.KernelMatchesReference` | crates/runnel-sim/tests/python_differential.rs:131-170 | the report of a completed replay carries the nine figures of the reference run (accesses, hits, misses, admissions, bypasses, evictions, loaded bytes, final and peak residency) and the metadata figures its policy closes with |
| `PolicyAgreement.NoCacheBypasses` | crates/runnel-sim/src/policy/mod.rs:493-495 | without a cache every demand of every trace is a bypassed miss and no page is ever resident |
| `PrefetchPlanning.PlanPrefetchVictims` | crates/runnel-sim/src/policy/mod.rs:587-651 | the scan over the probation entries, with its checked sums, gives the plan for a group |
| `PrefetchPlanning.PlanSpares` | crates/runnel-sim/src/policy/mod.rs:587-651 | an admitted group evicts distinct probation pages only, the weakest by score, recency and page, just enough of them, and never for a group worth no more than they are |
| `PrefetchPlanning.PlanRefuses` | crates/runnel-sim/src/policy/mod.rs:608-650 | a refused group exceeds the capacity, or all that probation could free, or is worth no more than the weakest victims that make room |
| `PrefetchPlanning.PlanDecides` | crates/runnel-sim/src/policy/mod.rs:608-650 | whenever room must be made, the answer is told from the one list of weakest victims: failure on overflow, refusal if they free too little or are worth as much, and otherwise exactly those victims |
| `PrefetchPlanning.PlanAtOnce` | crates/runnel-sim/src/policy/mod.rs:601-613 | without a scan: failure beyond 64 bits, refusal beyond the capacity, no victims where there is room |
| `PrefetchPlanning.PlanAdmits` | crates/runnel-sim/src/policy/mod.rs:608-650 | victims that are the weakest, free enough and are worth less are the answer, if nothing overflows |
| `PrefetchPlanning.PlanFails` | crates/runnel-sim/src/policy/mod.rs:601-650 | a plan fails exactly when the charge of the group or a sum of the scan leaves its width |
| `PrefetchPlanning.PlanNeverFails` | crates/runnel-sim/src/policy/mod.rs:601-650 | on the ledger of the kernel with scores of at most a million a plan fails exactly when the charge of the group leaves 64 bits |
| `PrefetchPlanning.WeakerMeans` | crates/runnel-sim/src/policy/mod.rs:618-624 | probation entries are weaker by score at the signalled step, then last touch, then page |
| `PrefetchPlanning.GroupSpares` | crates/runnel-sim/src/engine.rs:370-407 | a prefetch decision taken on that plan names no protected page |
| `PrefetchPlanning.ProtectedSurvive` | crates/runnel-sim/src/engine.rs:289-435 | over any number of such decisions every protected entry is still there, unchanged |
| `Sampling.Rng.Bounded` | crates/runnel-sim/src/generator.rs:534-543 | the rejection loop returns the first word at or above the threshold, reduced |
| `Sampling.BoundedIsFair` | crates/runnel-sim/src/generator.rs:534-543 | for every bound each result has exactly floor(2^64 / bound) accepted words |
| `Sampling.HarmonicWeights` | crates/runnel-sim/src/generator.rs:411-429 | each index but the excluded one has exactly its integer weight of draws, the excluded one none |
| `Sampling.HarmonicIsFair` | crates/runnel-sim/src/generator.rs:411-429 | through rejection and weighting together an index has exactly weight times floor(2^64 / total) words |
| `Sampling.WeightIsFloor` | crates/runnel-sim/src/generator.rs:412-416 | a weight is the whole part of a million over its place |
| `Sampling.DrawHarmonic` | crates/runnel-sim/src/generator.rs:411-429 | the subtracting walk returns that index and never passes the end of the range |
| `Sampling.ShuffleIsFair` | crates/runnel-sim/src/generator.rs:324-333 | every order of the experts comes from one list of choices and from no other |
| `Sampling.Shuffle` | crates/runnel-sim/src/generator.rs:327-333 | the in-place exchanges give the shuffle of the drawn choices |
| `Sampling.ShuffleDrawn` | crates/runnel-sim/src/generator.rs:327-333 | a shuffle drawn from words is the shuffle by the choices those words make |
| `Sampling.ShuffleReached` | crates/runnel-sim/src/generator.rs:327-333 | every list of choices is drawn, one accepted word a choice |
| `Routes.UniformPairsOnce` | crates/runnel-sim/src/generator.rs:391-403 | every ordered pair of different ranks comes from exactly one pair of draws |
| `Routes.JumpsOnce` | crates/runnel-sim/src/generator.rs:377-389 | a Markov jump reaches each of the fourteen clusters other than the current and the next exactly once |
| `Routes.NextRoute` | crates/runnel-sim/src/generator.rs:347-363 | for all six families a route names two different experts below 128 |
| `Routes.RouteGenerator.Next` | crates/runnel-sim/src/generator.rs:347-409 | the mutable generator produces exactly the specified route and state, whose laws per family are those of RouteLaws |
| `Routes.RoutesUpTo` | crates/runnel-sim/src/generator.rs:321-409 | every stream of words gives valid routes of every length |
| `Routes.RoutesOnlyAppend` | crates/runnel-sim/src/generator.rs:119-124 | asking for more routes never changes the earlier ones |
| `RouteLaws.PhaseShifts` | crates/runnel-sim/src/generator.rs:351-354 | in every run both ranks of step i lie among the sixteen of phase i / 256 mod 8 |
| `RouteLaws.CyclicCoversAll` | crates/runnel-sim/src/generator.rs:355-358 | any 64 consecutive steps name every expert exactly once |
| `RouteLaws.ScanPollutes` | crates/runnel-sim/src/generator.rs:365-375 | a step stays in ranks 0 to 15 or scans the next two of the other 112, wrapping around |
| `RouteLaws.ScanShare` | crates/runnel-sim/src/generator.rs:365-375 | of any 64 consecutive steps exactly 48 stay |
| `RouteLaws.ScansGoOn` | crates/runnel-sim/src/generator.rs:365-375 | a scan goes on where the last one stopped: twice as many ranks were scanned as steps scanned before |
| `RouteLaws.MarkovInCluster` | crates/runnel-sim/src/generator.rs:377-389 | a route lies in the eight ranks of the cluster of its step |
| `RouteLaws.MarkovMoves` | crates/runnel-sim/src/generator.rs:377-389 | the cluster stays exactly on transition draws below 85 of 100, advances by one exactly on those from 85 to 94, and jumps on the rest as a draw of fourteen says; never at the first step |
| `RouteLaws.BeginsAnywhere` | crates/runnel-sim/src/generator.rs:321-345 | every expert order and every first cluster is drawn, by words accepted for each choice |
| `RouteLaws.ZipfReaches` | crates/runnel-sim/src/generator.rs:349-350 | the stationary family draws every ordered pair of different ranks, by words in exact proportion to the harmonic weights |
| `RouteLaws.BlockReaches` | crates/runnel-sim/src/generator.rs:347-409 | the families that draw from blocks reach every ordered pair of the block in the same way |
| `RouteLaws.UniformReaches` | crates/runnel-sim/src/generator.rs:391-403 | the uniform family draws every ordered pair of different ranks, all by equally many words |
| `Predictor.RowBound` | crates/runnel-sim/src/generator.rs:439-457 | after any observations a transition row totals at most 640 + 2 (observed mod 256) |
| `Predictor.RowBeforeAging` | crates/runnel-sim/src/generator.rs:439-457 | between counting and aging a row totals at most 1152 |
| `Predictor.CountsSinceAging` | crates/runnel-sim/src/generator.rs:439-457 | since the last aging a cell grew by exactly the number of observations in which its source led to its destination |
| `Predictor.CountsAge` | crates/runnel-sim/src/generator.rs:451-455 | an aging halves a cell and rounds up, so a positive count never ages to zero |
| `Predictor.CausalPredictor.Observe` | crates/runnel-sim/src/generator.rs:439-457 | the 16-bit saturating table always holds the exact aged counts: no increment saturates |
| `Predictor.CausalPredictor.Predict` | crates/runnel-sim/src/generator.rs:459-499 | the prediction is the one the exact history gives, well formed, and exactly what Predictor.PredictedExactly says |
| `Predictor.PredictedExactly` | crates/runnel-sim/src/generator.rs:459-499 | an expert is predicted with a score exactly when all support is at least 8, fewer than two experts rank ahead by support then number, and the score is its share in parts per million, at least 100000; nothing else is predicted, and in rank order |
| `Predictor.PredictionsWellFormed` | scripts/run_m3_experiment.py:730-754 | at most two different experts, scores of at least the minimum sharing one million, in strict score-then-expert order |
| `Predictor.OthersRankLower` | crates/runnel-sim/src/generator.rs:482-487 | an expert with support outside the chosen two ranks after both of them |
| `Predictor.ScoreStrict` | crates/runnel-sim/src/generator.rs:482-495 | while the total stays below a million a larger count has a strictly larger score, so count order is score order |
| `TraceGenerator.PageCatalog` | crates/runnel-sim/src/generator.rs:241-259 | the nested loops build the catalogue and it passes the parser's catalogue check |
| `TraceGenerator.TraceAccepted` | crates/runnel-sim/src/generator.rs:169-186 | every trace of valid routes passes all semantic event checks of the independent parser |
| `TraceGenerator.LayoutAccepted` | scripts/run_m3_experiment.py:709-799 | every trace of valid routes passes the layout walk of the experiment verifier |
| `TraceGenerator.LongerOnlyAppends` | crates/runnel-sim/src/generator.rs:119-124 | for every family and stream a longer request only appends events |
| `TraceGenerator.PushDemands` | crates/runnel-sim/src/generator.rs:281-312 | six demands with consecutive sequence numbers: the pages of one expert, then of the other |
| `TraceGenerator.GenerateTrace` | crates/runnel-sim/src/generator.rs:125-202 | refuses exactly the lengths out of range; what it emits is the specified trace, passes both validators and is serialised within the five-MiB and line ceilings, so the serializer never refuses it |
| `TraceMeaning.TraceTells` | crates/runnel-sim/src/generator.rs:142-187 | a trace tells, step after step and nothing else, its prediction from the routes before it where there is one, and the six pages of its route |
| `TraceMeaning.GeneratedTells` | crates/runnel-sim/src/generator.rs:125-187 | so do the events generated for every family and stream, about the routes drawn for them |
| `TraceGenerator.TraceSize` | crates/runnel-sim/src/generator.rs:119-124 | every step adds at most 680 bytes of text, in lines shorter than 200 |
| `TraceGenerator.IdFits` | crates/runnel-sim/src/generator.rs:191-194 | every generated identifier fits the identifier grammar |
| `TraceText.SerializeTrace` | crates/runnel-sim/src/trace.rs:90-139 | the serializer succeeds exactly when the header declares the records, the catalogue and events pass the parser, and every line and the text fit their ceilings; then it returns the joined lines |
| `TraceText.EventRead` | crates/runnel-sim/src/model.rs:63-90 | a line names one event: kind, numbers and predictions can be read back |
| `TraceText.LinesRead` | crates/runnel-sim/src/trace.rs:29-72 | a text of printable lines splits into its lines in one way |
| `TraceText.TextDetermines` | crates/runnel-sim/src/trace.rs:83-89 | the canonical text is unique: traces with the same bytes have the same header, catalogue and events |
| `Bf16.ConversionSplits` | crates/runnel-kernels/src/bf16.rs:61-77 | for every non-NaN pattern the addition of the rounding bias never wraps 32 bits and rounds the magnitude alone, never past infinity |
| `Bf16.NearestTiesToEven` | crates/runnel-kernels/src/bf16.rs:61-77 | for every finite pattern the result is nearest in real value among all words, ties to the even word |
| `Bf16.OverflowThreshold` | crates/runnel-kernels/src/bf16.rs:61-97 | infinity is reached exactly from magnitude 0x7f7f8000, which is exactly where the checked conversion rejects |
| `Bf16.WidenNarrow` | crates/runnel-kernels/src/bf16.rs:34-77 | widening then narrowing is the identity on every non-NaN word |
| `Bf16.NanStaysNan` | crates/runnel-kernels/src/bf16.rs:61-77 | NaN stays NaN and keeps its sign |
| `Bf16.ConversionMonotone` | crates/runnel-kernels/src/bf16.rs:61-77 | the conversion preserves order |
| `Gemv.ScalarRow` | crates/runnel-kernels/src/lib.rs:232-243 | the ascending loop computes the rounded ascending sum |
| `Gemv.Avx2Row` | crates/runnel-kernels/native/bf16_gemv.c:64-123 | eight lanes, horizontal sum and tail compute the rounded lane sum |
| `Gemv.BothOrdersBounded` | crates/runnel-kernels/src/lib.rs:232-243 | for every column count and every rounding within relative error u (plus product underflow) both orders err by at most ((1+u)^(2 columns) - 1) sum|w x| plus the lost underflows |
| `Gemv.BothOrdersMeetContract` | docs/adr/0006-bf16-avx2-expert-kernel.md:180-184 | in single precision both orders meet gamma(2 columns) sum|w x| + 1e-7 wherever gamma is defined |
| `Gemv.RowMeetsContract` | scripts/run_m4_experiment.py:2601 | every output row of either backend meets the contract |
| `Gemv.LanesPartition` | crates/runnel-kernels/native/bf16_gemv.c:73-97 | the eight lanes together hold every product of the full blocks once |
| `Gemv.ShortRows` | crates/runnel-kernels/native/bf16_gemv.c:98-123 | rows shorter than a vector go through the same rounded additions in both orders, so the two real results are equal |
| `Gemv.Run` | crates/runnel-kernels/src/lib.rs:161-181 | publishes all rows or leaves the output untouched, and says which check failed; a non-finite report names the first such row |
| `CanonicalJson.DocumentRoundTrip` | crates/runnel-format/src/json.rs:261-320 | the strict parser reads back every document from its canonical bytes |
| `CanonicalJson.WriterInjective` | crates/runnel-format/src/json.rs:261-320 | distinct documents have distinct bytes |
| `CanonicalJson.ParseDocument` | crates/runnel-format/src/json.rs:261-320 | accepts only canonical bytes of a well-formed document |
| `CanonicalJson.AcceptanceIsStrict` | crates/runnel-format/src/manifest.rs:286-292 | whatever lenient library parser is used, the byte-equality check accepts exactly what the strict parser reads as that document |
| `CanonicalJson.OneSpelling` | crates/runnel-format/src/manifest.rs:286-292 | two inputs accepted by two readers, whatever those are, denote the same document exactly when they are the same bytes |
| `CanonicalJson.WrittenPrintable` | crates/runnel-format/src/json.rs:298-320 | no control byte appears in a written value |
| `CanonicalJson.LessMeans` | crates/runnel-format/src/json.rs:13-20 | one key is before another exactly when it is a proper prefix or has the smaller byte at the first difference |
| `JsonSpelling.ValueSpells` | crates/runnel-format/src/json.rs:268-320 | the bytes of every value are its text in the grammar of RFC 8259: no whitespace, commas between parts, short escapes where there are some |
| `CanonicalJson.Output.PutValue` | crates/runnel-format/src/json.rs:268-296 | the appending writer appends exactly the written value |
| `CanonicalJson.Output.PutString` | crates/runnel-format/src/json.rs:298-320 | appends exactly the escaped string |
| `CanonicalJson.Canonical` | crates/runnel-format/src/json.rs:261-266 | the bytes produced are canonical and parse back |
| `Coverage.CheckObject` | crates/runnel-format/src/manifest.rs:710-744 | sort and cursor accept exactly when the ranges partition the object; a rejection names an uncovered or doubly covered position |
| `Coverage.ValidateTensorCoverage` | crates/runnel-format/src/manifest.rs:710-744 | accepts exactly when every object is partitioned; otherwise names the first one that is not |
| `Coverage.PageCountCeil` | crates/runnel-format/src/manifest.rs:746-759 | a page index is below the count exactly when its first byte is inside the object |
| `Coverage.CollectTensor` | crates/runnel-cli/src/main.rs:853-862 | assembling a tensor from its intersecting pages in ascending order gives the eager slice and never fails |
| `Coverage.PageJoins` | crates/runnel-cli/src/main.rs:984-1010 | one intersection extends the collected prefix exactly to the end of its page |
| `Coverage.LayoutReproducesObject` | crates/runnel-format/src/manifest.rs:710-744 | slices of ranges that partition the object, laid out in the order of their offsets, reproduce the object |
| `Coverage.CollectTensors` | crates/runnel-cli/src/main.rs:849-866 | collecting every tensor page by page gives each of them its eager slice and never fails |
| `Coverage.Reassemble` | crates/runnel-cli/src/main.rs:849-866 | the tensors so collected, laid out by offset, are the object |
| `Decoding.TopKIsBest` | crates/runnel-runtime/src/model.rs:736-746 | the selected experts are the best k, ties to the lower index |
| `ReferenceModel.TopKOnce` | oracle/runnel_oracle/model.py:64-78 | the best k in order are one list, the one the runtime selects |
| `Decoding.SoftmaxShares` | crates/runnel-runtime/src/model.rs:931-947 | in exact arithmetic every score gets the share of its exponential: the shift by the maximum cancels |
| `Decoding.MaskedAttentionIsPrefix` | oracle/runnel_oracle/model.py:113-171 | for any scalar arithmetic in which zeros, minus infinity and non-finite values pass as in IEEE arithmetic, attention over rows whose later scores are filled with minus infinity equals attention over the prefix, or fails exactly when a later value is not finite |
| `Decoding.LastUnmasked` | oracle/runnel_oracle/model.py:113-171 | for any scalar arithmetic at all, masked attention at the last position is plain attention |
| `ReferenceModel.AttentionMeans` | oracle/runnel_oracle/model.py:124-144 | attention is the one solution of the equations of the reference: scaled products of head slices, masked softmax rows, products of rows with value columns |
| `ReferenceModel.FinishMeans` | oracle/runnel_oracle/model.py:144-171 | the block after attention is the one solution of its equations: both residual sums, norms, routing by rank, softmax of the chosen scores, weighted outputs and logits; it fails exactly where there is none |
| `IncrementalDecoding.FullAtIs` | oracle/runnel_oracle/model.py:113-171 | the formulas of the runtime give the output of the reference pass, and fail exactly where it has none |
| `IncrementalDecoding.Accumulate` | crates/runnel-runtime/src/model.rs:821-847 | the expert loop mixes the outputs by weight, or fails exactly when an expert does |
| `IncrementalDecoding.Complete` | crates/runnel-runtime/src/model.rs:529-572 | the residual updated in place gives everything after attention |
| `IncrementalDecoding.Causality` | oracle/generate.py:50-56 | under the same laws a position of a full recomputation is what its own prefix gives; later tokens can only make it fail, exactly when one cannot be normalised or has a non-finite value |
| `IncrementalDecoding.CausalAttention` | crates/runnel-runtime/src/model.rs:758-784 | for any scalar arithmetic the head loops compute attention over the cached keys and values |
| `IncrementalDecoding.SequenceState.ForwardToken` | crates/runnel-runtime/src/model.rs:498-582 | for any scalar arithmetic, rounded or not, a step succeeds exactly when the token, context and model match and every value is finite; its output is the last position of a full recomputation; on failure the state is unchanged |
| `IncrementalDecoding.GreedyToken` | crates/runnel-runtime/src/model.rs:748-756 | the first position of the largest logit |
| `IncrementalDecoding.GenerateGreedy` | crates/runnel-runtime/src/model.rs:601-637 | for any scalar arithmetic it generates exactly the tokens of the full-prefix greedy loop; after admission no context error can occur |

## Left out

- Sampling.Draw: takes a finite list of words and reports when it runs dry; that a fair stream almost surely suffices is not stated.
- Gemv.ShortRows: values are reals, so the sign of a zero and the bit patterns of the two results are not compared.
- Gemv.BothOrdersBounded: overflow to infinity is left to the finite-output check in Gemv.Run; the bound is for finite results.
- Coverage.CheckObject: non-empty ranges inside the object are a precondition, as the tensor parser enforces both before this check.
- Replays that prefetch have no reference to agree with: `Kernel`, `KernelAudit` and `PrefetchPlanning` cover them, `PolicyAgreement` does not.
- SHA-256, SplitMix64 and the xoshiro transition: arbitrary functions or streams.
- JSON tokenising, duplicate-key and depth limits of the library parser: an arbitrary lenient parser stands for them.
- Page hashes, file access, the asynchronous page cache and CPU feature detection.
- SiLU, RMS norm, projections and exp as numerics: arbitrary functions, so the dataflow, order of operations and failures of decoding are proved, not its accuracy.
- Tokenizer tables, adapters and configuration parsing.
