# BloomBee capability layer: a verified model

This project models the dependency-free algorithms of BloomBee's `mvp_capabilities` package and
proves what they promise, over every input, every run and every reachable state.

* **Continuous batching** (`Scheduler*.dfy`, `Simulation.dfy`, `Adapter.dfy`). The decode scheduler
  is a state machine over values: serial round robin (`ServeOne`), admission, a bounded batch, a
  clock that can jump. The loops of the program are methods proved equal to it. On top of that:
  termination, conservation of tokens and of requests, deinterleaving, exact waiting times, strict
  alternation, first come first served, a response bound, a list-scheduling bound, a comparison with
  every feasible schedule, and independence of the service order from the batch size.
* **KV prefix reuse** (`PrefixReuse.dfy`). The planner's total cost is a count of trie nodes, for
  every reuse threshold, and therefore does not depend on the order of the requests.
* **Speculative decoding** (`Speculation.dfy`). Every acceptance loop computes the longest common
  prefix of the draft and the target model's own greedy decode; whole speculative runs are lossless,
  against a given stream and against the model.
* **Evidence verifiers** (`LiveProof.dfy`, `KvProof.dfy`, `LiveCapture.dfy`, `JointGate.dfy`,
  `SchedulerEvidence.dfy`). Each verifier passes exactly the evidence that a declarative predicate
  describes; scheduler runs and assembled captures are characterised against these predicates.
* **Layers and peers** (`LayerPlanner.dfy`, `BlockRanges.dfy`, `LayerGaps.dfy`, `Roster.dfy`).
  Placement, range combination, gap detection and the heartbeat roster.

`Sorting.dfy`, `StringOrder.dfy`, `Sums.dfy`, `CommonPrefix.dfy`, `Duplicates.dfy`, `Decimal.dfy`,
`Arithmetic.dfy`, `EvidenceRows.dfy` and `Options.dfy` hold what these share.
`dafny verify dfyconfig.toml` checks everything.

Proofs use `hide` statements to keep definitions out of a proof that does not need them.

## How to read the model

* A request or cache entry is a subset type: the values its Python constructor lets through.
* Exceptions are `Err` or `None` results. JSON rows are datatypes; a field that is absent or of the
  wrong type is `None`.
* The target language model is any function from an input to one score row per token; its only
  assumed property is causality (`Speculation.Causal`). Detokenising is an arbitrary function.
* Seconds, gigabytes and logit differences are exact numbers. Clock values are parameters.
* `Finish(B, Init(requests))` is the state in which the scheduling loop stops; `Iterate(B, s, n)` is
  the state after n iterations; `Admit(s)` is the state after the admissions of the current tick.

## Findings

* Order independence of the prefix-reuse cost holds for every threshold, not only for 1
  (`PrefixReuse.PrefillIsTrieCost`, `PrefixReuse.OrderIndependent`).
* The gap sweep is exact for segments that start below zero as well; its closing gap, after the loop,
  can never be added (`LayerGaps.SweepPassesLast`). The reported total is the end of the segment that
  starts last, which need not be the furthest end: `LayerGaps.NestedTotal` gives an input, and
  `LayerGaps.TotalIsFurthest` says exactly when it is.
* A draft text can be reported as proven and yet with a mismatch. `Speculation.EmptyDraftMismatch` and
  `Speculation.OvershootMismatch` give inputs; `Speculation.ProvenWithMismatch` says exactly when: the
  pieces cover the draft and no piece ends where the draft ends.
* Enough pooled memory alone does not make a placement plan supported
  (`LayerPlanner.PoolAloneNotEnough`). `LayerPlanner.PlacedIsMin` says exactly when a plan is
  supported, and `LayerPlanner.PooledMemory` gives a margin of pooled memory that always suffices.

## Model

| member | source | states |
|---|---|---|
| Scheduler.ServeOne | mvp_capabilities/continuous_batching.py:161-181 | One round-robin service keeps every record equal to a prefix of its target, the queue free of duplicates and of finished requests, and logs exactly the event of the queue's head |
| Scheduler.Admit | mvp_capabilities/continuous_batching.py:133-139 | After admission every pending request arrives later than the current tick, and records, log and timeline are untouched |
| SchedulerOrder.AdmitQueues | mvp_capabilities/continuous_batching.py:133-139 | Admission takes exactly the arrived requests off the pending queue; those with tokens join the back of the active queue and those without the completed list, both in pending order |
| SchedulerOrder.FirstComeFirstServed | mvp_capabilities/continuous_batching.py:116-181 | Of two requests with tokens, the one that arrives first, or is listed first at the same tick, is served in an earlier row, or earlier in the same row, before any entry that serves the other |
| Scheduler.Step | mvp_capabilities/continuous_batching.py:132-193 | One iteration of the loop keeps the scheduler's state invariant |
| Scheduler.Init | mvp_capabilities/continuous_batching.py:116-130 | The starting state satisfies the invariant for every list of requests with distinct ids |
| Scheduler.ServeManyFrame | mvp_capabilities/continuous_batching.py:161-171 | Serving never touches the record, queueing or completion of a request that was not active |
| Scheduler.ArrivalOrderStable | mvp_capabilities/continuous_batching.py:116-117 | Requests that arrive together wait in the order they were given |
| SchedulerRuns.StepConservesTokens | mvp_capabilities/continuous_batching.py:132-193 | Tokens decoded and tokens left add up to the same number before and after every iteration |
| SchedulerRuns.StepProgress | mvp_capabilities/continuous_batching.py:132-145 | Every iteration decodes a token, admits a request or reaches the next arrival: the loop ends |
| SchedulerRuns.Finish | mvp_capabilities/continuous_batching.py:132-193 | The loop stops in a state with nothing pending and nothing active |
| SchedulerRuns.FinishIsIterate | mvp_capabilities/continuous_batching.py:132-193 | The final state is reached by finitely many iterations |
| SchedulerRuns.FinishConservesTokens | mvp_capabilities/continuous_batching.py:132-202 | A whole run decodes exactly the work there was at its start |
| SchedulerBatches.SerialIsParallel | mvp_capabilities/continuous_batching.py:147-181 | k round-robin services in a row have the same effect on queue, records, completions and outputs as serving the first k requests at once from the records as the tick began |
| SchedulerHistory.RowRoundTrip | mvp_capabilities/continuous_batching.py:183-192 | A batch can be read back exactly from its timeline row |
| SchedulerHistory.BatchIds | mvp_capabilities/continuous_batching.py:147-153 | A tick serves the first k requests of the queue, in queue order |
| SchedulerHistory.StepTimeline | mvp_capabilities/continuous_batching.py:183-193 | Every step keeps: rows flatten to the service log, ticks strictly increase, every row has 1 to B distinct requests |
| SchedulerHistory.StepDeinterleaves | mvp_capabilities/continuous_batching.py:161-177 | Every step keeps: the services of each request are its own solo decode so far |
| SchedulerHistory.StepKeepsEveryone | mvp_capabilities/continuous_batching.py:133-181 | Every step keeps pending, active and completed together a permutation of all ids |
| SchedulerHistory.IterateHistory | mvp_capabilities/continuous_batching.py:132-193 | The three facts above hold after any number of iterations |
| SchedulerFairness.AdmittedOnArrival | mvp_capabilities/continuous_batching.py:130-145 | A request leaves the pending queue at the tick it arrives, neither before nor after, and goes to the active queue or, with nothing to decode, straight to completed |
| SchedulerFairness.StepIsBatch | mvp_capabilities/continuous_batching.py:147-193 | All that an iteration with active requests does: queue, records, completions, log, the whole row, and the clock |
| SchedulerFairness.StepPosition | mvp_capabilities/continuous_batching.py:147-177 | In a tick, a request advances by one token if it is among the first B of the queue and is untouched otherwise |
| SchedulerFairness.WaitingTime | mvp_capabilities/continuous_batching.py:132-193 | The request at index i of the queue at tick t is first served at tick t + i / B, as entry i % B of that row |
| SchedulerFairness.FirstServedMeans | mvp_capabilities/continuous_batching.py:183-193 | What being first served at a tick means for the rows |
| SchedulerTurns.TakeTurns | mvp_capabilities/continuous_batching.py:132-193 | Over any stretch in which two requests stay active, their services strictly alternate in the flattened timeline |
| SchedulerTurns.TurnsBalance | mvp_capabilities/continuous_batching.py:147-181 | Strictly alternating services differ in number by at most one |
| SchedulerTurns.ProgressWithinOne | mvp_capabilities/continuous_batching.py:132-193 | Over such a stretch the progress of the two differs by at most one token |
| SchedulerBounds.StretchResponse | mvp_capabilities/continuous_batching.py:132-193 | While a request stays queued for n ticks, B * n is at most the tokens decoded plus (B - 1) times its own progress |
| SchedulerBounds.Admission | mvp_capabilities/continuous_batching.py:130-145 | Every pending request with tokens to decode is eventually queued, at exactly its arrival tick, at position 0 |
| SchedulerBounds.Completion | mvp_capabilities/continuous_batching.py:147-193 | Every queued request stays queued until a row reports it finished |
| SchedulerBounds.ResponseTime | mvp_capabilities/continuous_batching.py:132-193 | For every request under any arrivals: rows run tick by tick from its arrival to its finish, and B * (finish - arrival + 1) is at most the tokens in them plus (B - 1) times its length |
| SchedulerBounds.IterateWithinFinish | mvp_capabilities/continuous_batching.py:183-192 | Every intermediate timeline is a prefix of the final one |
| SchedulerBounds.FinishIsSerial | mvp_capabilities/continuous_batching.py:147-181 | With nothing left to arrive, a run of any batch size is serial round robin |
| SchedulerBounds.Makespan | mvp_capabilities/continuous_batching.py:132-193 | With nothing left to arrive, B * rows is at most the tokens left plus (B - 1) times the longest remainder |
| SchedulerTogether.ServiceOrderIndependent | mvp_capabilities/continuous_batching.py:147-181 | For requests that arrive together, service order, outputs and completion order are the same for all batch sizes |
| SchedulerTogether.MakespanTogether | mvp_capabilities/continuous_batching.py:132-201 | For requests that arrive together, B * decode batches is at most total target tokens plus (B - 1) times the longest target |
| SchedulerTogether.NearOptimal | mvp_capabilities/continuous_batching.py:132-201 | For requests that arrive together, no schedule with batches of at most B needs fewer than B / (2B - 1) times as many batches |
| SchedulerRows.RunIsFeasible | mvp_capabilities/continuous_batching.py:132-193 | The run itself is one of the schedules it is compared with: batches of at most B, every request as often as it has target tokens |
| Simulation.ValidateRequests | mvp_capabilities/continuous_batching.py:81-86 | Finds no duplicate exactly when ids are distinct, and otherwise an id used twice |
| Duplicates.FindDuplicate | mvp_capabilities/kv_prefix_reuse.py:99-104 | Finds no duplicate exactly when all ids are distinct, and otherwise an id that occurs twice |
| Simulation.AdmitArrivals | mvp_capabilities/continuous_batching.py:133-139 | The admission loop computes Admit, whose queues AdmitQueues describes, and keeps the mirror set equal to the queue |
| Simulation.PopBatch | mvp_capabilities/continuous_batching.py:147-153 | Pops the first min(B, active) ids and keeps the mirror set |
| Simulation.DecodeOne | mvp_capabilities/continuous_batching.py:162-172 | The service of one record is its next event and its advanced record |
| Simulation.DecodeBatch | mvp_capabilities/continuous_batching.py:155-176 | The decoding loop computes k serial services: records, completions, the row's columns and the requeue list |
| Simulation.Requeue | mvp_capabilities/continuous_batching.py:178-181 | Appends every unfinished id (the mirror-set test never drops one) |
| Simulation.RunLoop | mvp_capabilities/continuous_batching.py:116-193 | The nested loops terminate with records, completions and timeline of the final state Finish |
| Simulation.BuildReport | mvp_capabilities/continuous_batching.py:195-204 | The verification flag is set exactly when every output equals its target and all requests completed |
| Simulation.Simulate | mvp_capabilities/continuous_batching.py:98-223 | Rejects a batch size below 1 and duplicate ids; otherwise always passes, outputs equal targets, completed ids are a permutation of all ids, used slots equal serial batches |
| Simulation.ExactlyOnePlace | mvp_capabilities/continuous_batching.py:117-181 | At every point of every run each request is in exactly one of pending, active and completed |
| Simulation.FinalState | mvp_capabilities/continuous_batching.py:195-204 | At the end the completed ids are a permutation of all ids and all target tokens have been decoded |
| Simulation.FinalSlot | mvp_capabilities/continuous_batching.py:195-199 | At the end every record holds exactly its request's target |
| Simulation.TimelineDeinterleaves | mvp_capabilities/continuous_batching.py:155-192 | Reading the final timeline for one request gives positions 0, 1, 2, ..., its target tokens, and as inputs the last prompt token and then each previous output |
| SchedulerRows.EntryDecodes | mvp_capabilities/continuous_batching.py:161-192 | Every entry of the final timeline holds a position of its request, the target token there and, as input, the token before it or the last prompt token; the row reports the request finished exactly at its last position |
| SchedulerRows.EveryTokenDecoded | mvp_capabilities/continuous_batching.py:161-192 | Every target token of every request stands in some entry |
| SchedulerRows.PositionsIncrease | mvp_capabilities/continuous_batching.py:161-192 | The positions of a request go up from row to row, so no token is decoded twice |
| Simulation.UsedSlots | mvp_capabilities/continuous_batching.py:200-202 | The slots used in all rows equal the serial number of decode batches |
| Simulation.ResponseBound | mvp_capabilities/continuous_batching.py:98-193 | The response bound for every request of every run from its start |
| Simulation.FairProgress | mvp_capabilities/continuous_batching.py:98-193 | At every point of every run, progress of two requests that stay active differs by at most one token |
| Adapter.UnmaskPadding | mvp_capabilities/continuous_batching.py:72-77 | The attention mask recovers exactly the sequence that was padded |
| Adapter.BuildPaddedBatch | mvp_capabilities/continuous_batching.py:59-78 | All rows get the width of the longest sequence, padding fills the rest, the mask is 1 exactly on the sequence, and mask and length each recover it |
| Adapter.BuildTick | mvp_capabilities/continuous_batching.py:252-262 | A tick payload holds exactly its timeline row, one unpadded token per request |
| Adapter.BuildAdapterPlan | mvp_capabilities/continuous_batching.py:234-280 | Opted in, the payloads are the timeline row by row; otherwise there are none; fails exactly when the simulation does |
| Adapter.PayloadsDeinterleave | mvp_capabilities/continuous_batching.py:248-262 | Reading the adapter's payloads for one request gives exactly that request's own decode |
| SchedulerEvidence.ServedAfterArrival | mvp_capabilities/continuous_batching.py:132-193 | No row of a finished run serves a request before its arrival tick |
| SchedulerEvidence.ServedSomewhere | mvp_capabilities/continuous_batching.py:147-193 | Every request with tokens to decode appears in some row |
| SchedulerEvidence.SimulationMeetsVerifier | mvp_capabilities/continuous_batching_live_server_proof.py:163-293 | Evidence built from a simulated run passes the live verifier exactly when model and fingerprint are not empty, there are enough requests, all have tokens, two arrive at different ticks and some tick serves more than one |
| SchedulerEvidence.SimulatedVerdict | mvp_capabilities/continuous_batching_live_server_proof.py:137-301 | From requests to the live verdict: simulating, reporting and verifying succeeds exactly on those conditions, and fails exactly when the simulation rejects its input |
| CommonPrefix.CommonPrefixLen | mvp_capabilities/kv_prefix_reuse.py:62-68 | The loop computes the longest common prefix; the byte comparison of the text verifier is the same loop |
| PrefixReuse.FindBestPrefix | mvp_capabilities/kv_prefix_reuse.py:71-86 | Returns the longest match over all entries and the first entry that has it, or nothing if it is shorter than the threshold |
| PrefixReuse.PlanRequest | mvp_capabilities/kv_prefix_reuse.py:131-152 | Reused tokens are the longest cached prefix of at least the threshold, with the suffix they make up the request, and the match is the first entry that has them |
| PrefixReuse.PlanAll | mvp_capabilities/kv_prefix_reuse.py:124-167 | Every request is planned against the cache as grown so far; totals, saved tokens, events and final cache are what they should be; verification always passes |
| PrefixReuse.PlanPrefixReuse | mvp_capabilities/kv_prefix_reuse.py:107-178 | Rejects a threshold below 1 and duplicate ids, otherwise plans all requests |
| PrefixReuse.PlanMeans | mvp_capabilities/kv_prefix_reuse.py:124-178 | A plan in full: the final cache is the initial one followed by one entry per request, named after it with the suffix :full; each row against the cache at its turn; totals that add up the rows |
| PrefixReuse.PlanCost | mvp_capabilities/kv_prefix_reuse.py:130-167 | The totals of a plan are the trie counts of its requests, for every threshold |
| PrefixReuse.CachedPrefix | mvp_capabilities/kv_prefix_reuse.py:77-86 | The first k tokens of a request are cached exactly when k is at most its longest match |
| PrefixReuse.AddedNodes | mvp_capabilities/kv_prefix_reuse.py:131-153 | How many new trie nodes a request adds, from its length and its longest match |
| PrefixReuse.PrefillIsTrieCost | mvp_capabilities/kv_prefix_reuse.py:130-153 | For every threshold m: total prefill is the new trie nodes at depth m and below, plus m - 1 per new m-token prefix, plus the tokens of requests shorter than m |
| PrefixReuse.PrefillIsNodeCount | mvp_capabilities/kv_prefix_reuse.py:130-153 | With threshold 1, total prefill is the number of distinct non-empty prefixes of the requests that no initial entry has |
| PrefixReuse.EventsAreRepeats | mvp_capabilities/kv_prefix_reuse.py:165-165 | Reuse events are the requests of at least m tokens minus the distinct new m-token prefixes |
| PrefixReuse.OrderIndependent | mvp_capabilities/kv_prefix_reuse.py:130-165 | Total prefill and number of reuse events are invariant under reordering the requests, for every threshold |
| Speculation.EvaluateDraft | mvp_capabilities/draft_provider.py:111-154 | Accepts the longest common prefix, rejects the rest, and commits exactly the first min(accepted + 1, available) verifier tokens, with the right fallback or bonus token |
| Speculation.SpeculationLossless | mvp_capabilities/draft_provider.py:122-154 | At every point of a run of evaluations of arbitrary drafts, what the verdicts commit is a prefix of the verifier stream, of at least one token per round, hence the whole stream within as many rounds as it has tokens; rounds plus accepted tokens equal the tokens committed, plus one exactly if the last round added no fallback or bonus token |
| Speculation.SpeculationIsGreedy | mvp_capabilities/draft_provider.py:111-154 | When each round evaluates its draft against the model's own continuation, what is committed is exactly the sequential greedy decode, whatever is drafted and however far each round looks ahead |
| Speculation.GreedyContinues | mvp_capabilities/phone_llama_cpp_binding_verifier.py:293-317 | Greedy decode can be cut anywhere and continued from there |
| Speculation.StaticPropose | mvp_capabilities/draft_provider.py:62-74 | Proposes a prefix of the fixed list, as long as the non-negative bound allows |
| Speculation.GreedyPrefix | mvp_capabilities/phone_llama_cpp_binding_verifier.py:293-317 | A shorter greedy decode is a prefix of a longer one |
| Speculation.BuildExternalReport | mvp_capabilities/phone_llama_cpp_binding_verifier.py:173-206 | Accepts the longest common prefix of draft and target ids with its pieces, and names the mismatch exactly |
| Speculation.ForcedRow | mvp_capabilities/phone_llama_cpp_binding_verifier.py:287-296 | As long as the draft agrees with greedy decode, the forced batch's row yields the next greedy token, whatever the draft continues with |
| Speculation.ForcedBatch | mvp_capabilities/phone_llama_cpp_binding_verifier.py:287-317 | The generated ids are the greedy decode up to and including the first token the draft missed, each with its piece in context, and accept as much of the draft as the full greedy decode |
| Speculation.VerifyExternal | mvp_capabilities/phone_llama_cpp_binding_verifier.py:244-332 | Accepts exactly the longest prefix of the draft that sequential greedy decode produces, with its pieces; reports as generated the greedy decode up to the first miss; the target never ends before the draft; fails exactly when the context overflows |
| Speculation.BuildTextReport | mvp_capabilities/phone_llama_cpp_binding_verifier.py:61-90 | Accepted bytes are the longest common prefix of the draft and the joined pieces, however the bytes fall across pieces; token count and mismatch are those of the first piece that leaves the draft |
| Speculation.TextReportUnique | mvp_capabilities/phone_llama_cpp_binding_verifier.py:61-90 | Draft, ids and pieces determine the report |
| Speculation.ProvenWithMismatch | mvp_capabilities/phone_llama_cpp_binding_verifier.py:66-90 | A report is proven and yet names a mismatch exactly when the pieces cover the draft and none of them ends where the draft ends |
| Speculation.EmptyDraftMismatch | mvp_capabilities/phone_llama_cpp_binding_verifier.py:66-90 | So it is for the empty draft and any non-empty first piece |
| Speculation.OvershootMismatch | mvp_capabilities/phone_llama_cpp_binding_verifier.py:66-90 | And for the draft "ab" and the piece "abc" |
| Speculation.TextReportSettled | mvp_capabilities/phone_llama_cpp_binding_verifier.py:374-387 | Pieces that have covered or left the draft give the same report as any longer stream |
| Speculation.Sample | mvp_capabilities/phone_llama_cpp_binding_verifier.py:369-387 | The sampler yields a greedy decode that uses up the budget or has covered or left the draft |
| Speculation.VerifyText | mvp_capabilities/phone_llama_cpp_binding_verifier.py:335-400 | With a limit of k tokens the report is the one on exactly k greedy tokens, wherever the sampler stopped; without a limit it is the one on as many tokens as the draft has bytes and, if no piece is empty, on any longer decode; it agrees with the evaluation of the same bytes as a draft |
| Speculation.BudgetSuffices | mvp_capabilities/phone_llama_cpp_binding_verifier.py:351-351 | If no piece is empty, the default budget never cuts a verdict short |
| Speculation.GreedyPiecesAre | mvp_capabilities/phone_llama_cpp_binding_verifier.py:375-378 | The pieces compared are those of the greedily decoded tokens, one by one |
| LiveProof.CheckHeader | mvp_capabilities/continuous_batching_live_server_proof.py:144-161 | No failure exactly when model, gate, flag, opt-in, observation and absence of a speedup claim are in order |
| LiveProof.HeaderMeans | mvp_capabilities/continuous_batching_live_server_proof.py:144-161 | What the header must carry, with the literal gate and flag |
| LiveProof.RowMeans | mvp_capabilities/continuous_batching_live_server_proof.py:182-230 | What a passing row must carry, with the literal tolerances |
| LiveProof.CompareNumbers | mvp_capabilities/continuous_batching_live_server_proof.py:71-92 | Accepts exactly comparisons within both tolerances whose top token matches |
| LiveProof.CheckLogits | mvp_capabilities/continuous_batching_live_server_proof.py:213-230 | No failure exactly when both fingerprints exist and agree, or differ within numeric tolerance |
| LiveProof.CheckTokens | mvp_capabilities/continuous_batching_live_server_proof.py:197-211 | No failure exactly when both sides exist and have equal, non-empty token lists |
| LiveProof.ScanRow | mvp_capabilities/continuous_batching_live_server_proof.py:182-230 | How one row changes failures, known ids, arrivals and counters |
| LiveProof.ScanRows | mvp_capabilities/continuous_batching_live_server_proof.py:170-230 | The row loop is clean exactly when every row holds and ids are distinct, and records exactly the ids and arrivals |
| LiveProof.Spread | mvp_capabilities/continuous_batching_live_server_proof.py:243-243 | True exactly when two arrivals differ |
| LiveProof.SightIds | mvp_capabilities/continuous_batching_live_server_proof.py:273-280 | Records the first sighting of each known id and fails exactly on invalid or unknown ids |
| LiveProof.SelectMeans | mvp_capabilities/continuous_batching_live_server_proof.py:261-270 | Masking keeps exactly what stands at the positions that the mask marks |
| LiveProof.TickMeans | mvp_capabilities/continuous_batching_live_server_proof.py:252-280 | Position by position: a batch mentions the ids at active positions, is batched when two positions are active, and is in order when those ids are known |
| LiveProof.FirstSeenMeans | mvp_capabilities/continuous_batching_live_server_proof.py:280-280 | The first sighting is the tick of the first batch in the list that mentions the id |
| LiveProof.ScanTick | mvp_capabilities/continuous_batching_live_server_proof.py:255-280 | Judges one tick batch under its mask |
| LiveProof.ScanTicks | mvp_capabilities/continuous_batching_live_server_proof.py:252-280 | Counts batched ticks exactly and records, for each known id, the tick of the first batch that mentions it |
| LiveProof.BatchedCountIs | mvp_capabilities/continuous_batching_live_server_proof.py:271-272 | The batched count is the number of batched ticks |
| LiveProof.CheckSightings | mvp_capabilities/continuous_batching_live_server_proof.py:284-291 | Clean exactly when every known id was seen and not before its declared arrival |
| LiveProof.Verify | mvp_capabilities/continuous_batching_live_server_proof.py:137-324 | Passes exactly when EvidenceHolds; late arrival, batched ticks, token parity and both kinds of logits parity are exact on passing and failing evidence; a pass sets all that later gates ask for |
| LiveProof.NoEarlyMention | mvp_capabilities/continuous_batching_live_server_proof.py:252-291 | In passing evidence with batches in tick order, every request stands at an active position of some batch, and at none of a batch before its declared arrival |
| KvProof.CheckHeader | mvp_capabilities/kv_prefix_reuse_proof.py:297-343 | No failure exactly when model, gate, reuse and baseline flags, telemetry tags and common prefix are in order |
| KvProof.HeaderMeans | mvp_capabilities/kv_prefix_reuse_proof.py:297-343 | What the header must carry, with the literal gate and tags |
| KvProof.CheckHandoff | mvp_capabilities/kv_prefix_reuse_proof.py:222-278 | Accepts exactly when the first conclusive handoff has distinct handles or disjoint slices of equal width, a 64-character checksum and agreeing counts |
| KvProof.HandoffMeans | mvp_capabilities/kv_prefix_reuse_proof.py:222-278 | When handles or slices are distinct, when a handoff is passed over, and the literal checksum length |
| KvProof.CheckServer | mvp_capabilities/kv_prefix_reuse_proof.py:324-332 | Observed exactly when reuse was reported and the handoff is accepted |
| KvProof.ServerMeans | mvp_capabilities/kv_prefix_reuse_proof.py:324-332 | Reuse was reported in summary or observation, and the first handoff not passed over is sound |
| KvProof.CheckPrefix | mvp_capabilities/kv_prefix_reuse_proof.py:369-384 | Clean exactly when the row has a prefix, equal to the common one if given, and a suffix |
| KvProof.CheckTokens | mvp_capabilities/kv_prefix_reuse_proof.py:386-439 | Clean exactly when both sides exist, tokens are non-empty and equal, nothing denies it and correctness hashes do not differ |
| KvProof.CheckLogits | mvp_capabilities/kv_prefix_reuse_proof.py:414-429 | Clean exactly when both fingerprints exist, agree or are within numeric tolerance, and nothing denies it |
| KvProof.NumbersMean | mvp_capabilities/kv_prefix_reuse_proof.py:154-183 | Numeric agreement means declared differences within 0.01 and 0.001, or every logit within 0.01 and their mean difference within 0.001 |
| KvProof.SumDiffNext | mvp_capabilities/kv_prefix_reuse_proof.py:170-176 | The sum of differences is 0 over no pairs and grows by the difference of each pair |
| KvProof.SumDiffReorder | mvp_capabilities/kv_prefix_reuse_proof.py:170-176 | That sum is never negative and does not depend on the order of the pairs |
| KvProof.CheckTiming | mvp_capabilities/kv_prefix_reuse_proof.py:449-469 | Clean exactly when both times are positive and a declared difference is right |
| KvProof.SecondsMean | mvp_capabilities/kv_prefix_reuse_proof.py:449-454 | Which time counts for a side: its own if positive, else the one of the row |
| KvProof.RowMeans | mvp_capabilities/kv_prefix_reuse_proof.py:361-469 | What a passing row must carry, field by field |
| KvProof.SavedMeans | mvp_capabilities/kv_prefix_reuse_proof.py:459-461 | The time saved adds up row by row where both times are known |
| KvProof.ScanRow | mvp_capabilities/kv_prefix_reuse_proof.py:361-469 | How one row changes failures, known ids, prefixes, suffixes, events and time totals |
| KvProof.ScanRows | mvp_capabilities/kv_prefix_reuse_proof.py:345-469 | The row loop is clean exactly when every row is in order and ids are distinct, and collects exactly the prefixes, suffixes and time saved |
| KvProof.SharedPrefix | mvp_capabilities/kv_prefix_reuse_proof.py:488-491 | Rows in order share one prefix exactly when there is one distinct prefix |
| KvProof.Verify | mvp_capabilities/kv_prefix_reuse_proof.py:281-560 | Passes exactly when one non-empty prefix is shared by all rows and reused in full, there are enough distinct suffixes, tokens and logits agree, times are measured and, if required, reuse is faster in total; its flags are exact on passing and failing evidence |
| LiveCapture.CheckCapture | mvp_capabilities/kv_prefix_reuse_live_capture.py:273-279 | Accepts exactly captures of the right model with tokens and a non-empty suffix |
| LiveCapture.AssembleRows | mvp_capabilities/kv_prefix_reuse_live_capture.py:269-332 | Builds one row per request and fails exactly when some capture does not fit |
| LiveCapture.Assemble | mvp_capabilities/kv_prefix_reuse_live_capture.py:212-332 | Succeeds exactly on well-formed input and then yields the evidence, rows in order of their ids |
| LiveCapture.AssembledMeans | mvp_capabilities/kv_prefix_reuse_live_capture.py:242-332 | The evidence field by field: header, tags and observation |
| LiveCapture.AssembledRow | mvp_capabilities/kv_prefix_reuse_live_capture.py:280-302 | A row of the evidence field by field |
| LiveCapture.CaptureFits | mvp_capabilities/kv_prefix_reuse_live_capture.py:273-279 | Which captures fit |
| LiveCapture.LiveReuseMeans | mvp_capabilities/kv_prefix_reuse_live_capture.py:137-167 | What it takes for a server report to prove live reuse |
| LiveCapture.ReusedMeans | mvp_capabilities/kv_prefix_reuse_live_capture.py:188-202 | The reused count of a request: 0 without live reuse, else what the server reports if positive |
| LiveCapture.OnlyLiveReusePasses | mvp_capabilities/kv_prefix_reuse_live_capture.py:137-167 | Assembled evidence passes only if the server report declared opt-in, observed and live reuse, and a handoff between distinct handles with a 64-character checksum |
| LiveCapture.AssembledPasses | mvp_capabilities/kv_prefix_reuse_live_capture.py:242-332 | Exactly when assembled evidence passes, in terms of model name, request ids, server report and captures: their tokens, fingerprints, reuse counts and seconds |
| LiveCapture.CaptureAgreesMeans | mvp_capabilities/kv_prefix_reuse_live_capture.py:273-302 | Which captures support the claim, in their own fields and the count the server reports |
| LiveCapture.SecondsSavedMeans | mvp_capabilities/kv_prefix_reuse_live_capture.py:126-129 | The seconds saved add up request by request |
| JointGate.ContinuousReady | mvp_capabilities/continuous_kv_joint_readiness.py:44-62 | Ready exactly when gate, status, late arrival, batched ticks, tokens, logits and failed checks are all in order |
| JointGate.KvReady | mvp_capabilities/continuous_kv_joint_readiness.py:65-83 | Ready exactly when gate, status, prefix, tokens, logits, timing, live reuse and failed checks are all in order |
| JointGate.BuildJointReport | mvp_capabilities/continuous_kv_joint_readiness.py:86-107 | Passes exactly when both reports are ready and do not name different models |
| JointGate.JointVerdict | mvp_capabilities/continuous_kv_joint_readiness.py:86-107 | From raw evidence: the gate passes exactly when both kinds of evidence hold and do not name different models |
| Decimal.ReadShow | mvp_capabilities/join_http_server.py:125-126 | Reading a printed integer gives it back, negative ones included |
| Decimal.ShowMeans | mvp_capabilities/join_http_server.py:153-153 | How integers are written, digit by digit |
| Decimal.ReadTrims | mvp_capabilities/join_http_server.py:125-126 | Whitespace around a number does not matter |
| Decimal.ReadOnlyDigits | mvp_capabilities/join_http_server.py:125-126 | A number has a digit and nothing but digits, signs, underscores and spaces |
| BlockRanges.RangeRoundTrip | mvp_capabilities/join_http_server.py:121-129 | Parsing a printed range gives it back |
| BlockRanges.ReadRangeMeans | mvp_capabilities/join_http_server.py:121-129 | A text is a range exactly when it is two numbers around its first colon, and a block range when the second exceeds the first |
| BlockRanges.Follow | mvp_capabilities/join_http_server.py:148-153 | The cursor reaches an end exactly when the sorted ranges are a gapless chain of non-empty ranges |
| BlockRanges.CombinedAssignmentRange | mvp_capabilities/join_http_server.py:144-153 | Accepts a list exactly when its entries are ranges of which some reordering tiles an interval, and returns that interval |
| BlockRanges.CombinedRange | mvp_capabilities/multi_block_proof.py:43-56 | The same for lists of at least two |
| BlockRanges.TilesBySorting | mvp_capabilities/join_http_server.py:145-153 | Some reordering of the ranges tiles an interval exactly when the sorted list does |
| BlockRanges.TilesUnique | mvp_capabilities/join_http_server.py:145-153 | The tiled interval is determined by the ranges and its width is the sum of theirs |
| BlockRanges.CombinationUnique | mvp_capabilities/multi_block_proof.py:43-56 | The combined interval does not depend on the order of the list, and is unique, so both routines agree where both apply |
| BlockRanges.ShownCombines | mvp_capabilities/layer_planner.py:198-198 | Printed ranges that tile an interval combine to it |
| LayerPlanner.PlanPlacement | mvp_capabilities/layer_planner.py:62-138 | Refuses a model without layers or memory need; otherwise assignments in order of host name tile [0, placed), each within its peer's memory, and placed is the smaller of layer count and pooled capacity |
| LayerPlanner.Place | mvp_capabilities/layer_planner.py:88-118 | The placement loop computes that plan |
| LayerPlanner.PlanFills | mvp_capabilities/layer_planner.py:91-114 | Peers are taken in order of host name, equal names as listed; each assignment goes to the next peer with room for a layer and takes all its room unless the layers run out |
| LayerPlanner.HostnameMeans | mvp_capabilities/layer_planner.py:96-96 | A peer goes by its name, and by unknown if it has none |
| StringOrder.LeMeans | mvp_capabilities/layer_planner.py:91-91 | The order of names: a prefix first, else by the first character that differs |
| LayerPlanner.PlanStable | mvp_capabilities/layer_planner.py:91-114 | With distinct host names the plan does not depend on the order of the peers |
| LayerPlanner.PooledBounds | mvp_capabilities/layer_planner.py:97-101 | Pooled memory lies between the pooled capacity and one layer more per peer |
| LayerPlanner.PooledMemory | mvp_capabilities/layer_planner.py:116-118 | A supported plan has enough pooled memory; layers plus peers minus one layers' worth of pooled memory always suffices |
| LayerPlanner.PlacedIsMin | mvp_capabilities/layer_planner.py:97-118 | A plan is supported exactly when the whole layers that fit on each peer add up to the layer count |
| LayerPlanner.PoolAloneNotEnough | mvp_capabilities/layer_planner.py:97-118 | Two peers whose pooled memory holds three layers, and every plan for them is unsupported and misses one |
| LayerPlanner.AttachLaunch | mvp_capabilities/layer_planner.py:188-217 | Consecutive ports, the block range of each assignment, and the first host, or peer-1 if it has no name, as seed of all others |
| LayerPlanner.PlanCombines | mvp_capabilities/layer_planner.py:192-217 | The block ranges of a plan with any assignment combine to 0 up to the layers placed |
| LayerGaps.CollectRanges | mvp_capabilities/demo_dashboard.py:477-484 | Collects exactly the non-empty segments of all groups |
| LayerGaps.CollectMeans | mvp_capabilities/demo_dashboard.py:477-484 | Segments are collected group by group in order, leaving out only the empty ones |
| LayerGaps.Sweep | mvp_capabilities/demo_dashboard.py:491-499 | The sweep judges every layer below its cursor correctly and adds up the proven widths |
| LayerGaps.SweepPassesLast | mvp_capabilities/demo_dashboard.py:500-501 | The cursor is never short of the reported total: the closing gap is never added |
| LayerGaps.SortedLast | mvp_capabilities/demo_dashboard.py:487-488 | Sorting by start puts last the segment that starts last and, among those, is listed last |
| LayerGaps.TotalIsFurthest | mvp_capabilities/demo_dashboard.py:487-488 | The layer before the reported total is covered, and the total is the furthest end exactly when no segment starts no later than the last-starting one and ends beyond it |
| LayerGaps.NestedTotal | mvp_capabilities/demo_dashboard.py:487-488 | Segments 0-10 and 2-5 give the total 5, although layer 9 is covered |
| LayerGaps.DetectGaps | mvp_capabilities/demo_dashboard.py:475-511 | Gaps are non-empty, sorted and apart, and a layer from 0 up to the furthest end lies in a gap exactly when no segment of any group covers it; the total is the end of the last-starting segment; the proven count adds up the widths of proven segments |
| LayerGaps.ExactMeans | mvp_capabilities/demo_dashboard.py:491-501 | What exact gaps are, layer by layer |
| Roster.SafeName | mvp_capabilities/join_coordinator.py:49-51 | A sanitised name keeps every allowed character in place and has underscores for the rest |
| Roster.JoinState.Record | mvp_capabilities/join_coordinator.py:54-74 | Overwrites exactly one file and keeps the store equal to the latest heartbeat of every name in the log |
| Roster.JoinState.LoadActive | mvp_capabilities/join_coordinator.py:77-100 | The roster is exactly the latest heartbeat of each sanitised name that carries the token and is of age 0 to the maximum, in strictly increasing order of peer id |
| Roster.OnRosterMeans | mvp_capabilities/join_coordinator.py:77-100 | Who is on the roster, in terms of the log: a heartbeat that no later one of its name replaces, of that token, of age 0 to the maximum |
| Roster.RostersDisjoint | mvp_capabilities/join_coordinator.py:91-98 | Rosters of two tokens never share a sanitised name, whatever the times |

## Left out

- Simulation.Simulate: the average batch fill, a rounded ratio, is not part of the report.
- Simulation.ExactlyOnePlace: together with the other run lemmas it speaks of states between iterations; states in the middle of an iteration are covered by the loop invariants of RunLoop's helpers.
- Speculation.EvaluateDraft: the acceptance rate, a rounded ratio, is not part of the verdict.
- Speculation.VerifyText: the limits of the model's context window on sampling are not modelled.
- Speculation.Causal: the prompt is taken to be non-empty, because the tokenizer always adds a first token.
- Speculation.BuildExternalReport: takes at least as many pieces as target ids, as its caller supplies; with fewer the code would stop with an index error. Speculation.BuildTextReport likewise takes at least as many ids as pieces.
- JointGate.JointVerdict: is stated for a positive minimum of requests, because the KV verifier refuses any other.
- LiveProof.Verify: failure texts are constructors, so the token-parity flag of a failed report does not depend on phrases inside request ids; the order in which missing sightings are reported is not modelled.
- KvProof.Verify: the evidence summary (hashes, rounded totals, observed tags) is not part of the report, and failure texts are constructors as above.
- LiveCapture.AssembledPasses: is stated for a positive minimum of requests, because the KV verifier refuses any other.
- Decimal.Read: digits and whitespace outside ASCII are not modelled.
- LayerPlanner.PlanPlacement: rounding of memory figures is not modelled; a peer's free memory is the figure after rounding.
- LayerPlanner.AttachLaunch: command strings are left out; ports, ranges and seed are modelled.
- LayerGaps.DetectGaps: the coverage percentage is left out; it divides by the reported total and counts overlapping segments twice.
- Roster.JoinState.LoadActive: unreadable files and files written by other programs are left out.
- Prefix hashes and other digests: they only label results.
- File, HTTP, subprocess, command-line and JSON handling: input and output only.
- Dashboard rendering, join cards and QR codes: user interface.
- Status tables, preflights, model registries and capture plans: constants and single checks.
- The live BloomBee server, its sessions and its tensors: not part of this model.
