# A verified model of the C-ACT decision and evidence core

C-ACT decides, one retrieval opportunity at a time, whether a piece of remembered knowledge may
influence a Minecraft agent. This project models the part of it that has checkable state and proves
what that part is for. Floats are exact reals. Random draws, clocks, fitted models, hashes and text
encodings are parameters about which nothing is assumed unless a contract says so.

| modules | what they model | main result |
|---|---|---|
| `Quantiles`, `CapDraws` | numpy's default quantile and the unified admission scalar over paired draws | every quantile is monotone under pointwise dominance of the draws, and bounded from both sides by counting them |
| `Admission`, `AdmissionRuns`, `AdmissionLaws`, `Lookup` | the online policy with its per-episode risk ledger, and whole runs of it | the break-even law of benefit against harm; worse evidence and a larger reserve never admit more; what the ledger admits the pointwise policy admits; exact budget accounting; episode isolation |
| `Calibrator` | the grid search over the conservatism parameter, the audit, and deployment | the search collapses to the smallest parameter; exactly when an artifact passes the audit on any split; selection and deployment apply one test |
| `CrossFit`, `Expectation`, `Unbiased`, `OpportunityLog`, `GroupUnbiased`, `ExactScores`, `ArmWeights` | fold-separated doubly robust scoring, and the randomization behind it | both halves of double robustness: design unbiasedness for an arbitrary learner, of the whole log and of every group estimate, and exactness under every assignment where predictions are exact |
| `Strings`, `Evidence`, `EvidenceFlow`, `EvidenceShares` | grouping on four levels and the in-place, top-down shrinkage pass | each result is one convex combination with positive weights along the chain of ancestors, draw by draw, in which a parent counts for 24 rows |
| `VlmCache`, `CacheRecency` | the LRU cache with lazy expiry | inclusion between capacities on any trace; exactly which lookups are answered, by how many keys were used since |
| `BatchProxy`, `BatchReplies` | lock sections, timer flag, flush and re-arm as atomic steps | while timers start, no lost wakeup and complete draining exactly when no batch reply is malformed; exactly once in order; bounded waiting; every answer is the reply at the ticket's own place |
| `Holm`, `FamilyWise` | the step-down correction | it is the closed Bonferroni test, and it controls the family-wise error |
| `Bytes`, `Comms`, `Snapshot` | length-prefixed messages and the canonical byte stream of a directory | round trips under any fragmentation; unique decodability |
| `Sanitizer`, `SanitizerLaws`, `NearDuplicates` | quarantine, near-duplicate removal and merging | conservation of candidates, one log entry per loss, sound output, exactly which groups, with repeated items or not, always come out without near-duplicates |
| `Lifecycle` | the guarded six-state log and the automatic rule | unbroken rising histories; certification only through the gate; where steady evidence leads |
| `Decay`, `TrustStore` | temporal decay and the weighted Beta store | exactly when decays compose, when ids collide and when an entry decays toward its own prior; evidence accounting for any ids |
| `ContextBucket` | equal-count calibration error and merging of small buckets | two-sided bounds and order independence of the error; a disjoint merge that leaves no measurable pair out |

Objects whose methods change state in the program are classes here: `AdmissionPolicy`,
`GroupEstimate`, `VLMCache`, `BatchProxy`, `Socket`, `LifecycleManager`, `TemporalDecay`,
`TrustStore`, `BankSanitizer`. Each method's contract gives its whole new state as a function of the
old one, and the theorems are about runs of those functions.

Where the code and what is said about it differ, the model follows the code:

- The repository's README and its audit document describe a per-episode risk budget that is
  exhausted. The admission test lets a charge exceed the standing budget by up to `cap_epsilon`
  (`cact/protocol_v2.py:747`) and the stored budget is clamped at zero (`:753`), while the
  certificate's `budget_after` is not. The risk borne can therefore exceed the budget
  (`OneAdmissionCanOvershoot`), and stays within it exactly when no opportunity meets the guards
  of `Tempts` against the budget standing at that moment (`WithinBudgetIff`).
- `select` marks its result supported as soon as any estimate exists, also when none is supported
  (`cact/protocol_v2.py:607-610`).
- The g1 key omits the resource scarcity that the g2 key contains, so g1 groups do not nest in g2
  groups (`LevelOneDoesNotNest`); the parent is the one of the group's first row.
- Unit decays do not always equal one longer decay, because each is clipped to [0.1, 20];
  `UnitDecaysComposeIff` gives the exact condition for any posterior and any prior.
- A knowledge id that contains `|` is not recovered from a store key (`KeyParsesBack`), and two items
  can share an entry (`SeparatorsCollide`) exactly when one id begins with the other and a separator
  (`IdsCanCollideIff`). An entry is sure to decay toward its item's own
  prior exactly when the id has no separator and does not begin with `pair:` (`OwnPriorIff`).
- De-duplication can keep two items that are near-duplicates of each other
  (`KeptItemsCanResemble`). Whatever the texts and the threshold, it cannot exactly when, among the
  different items of a group in order of first appearance, none beats an earlier one, except that
  the last may beat the one just before it (`KeptApartIff`).
- The flush of the batching proxy indexes a parsed reply outside any handler
  (`experiments/batch_proxy.py:57-64`): a batch reply that is null, a number, a boolean or a
  non-empty object kills the thread with the timer flag set, and no request is answered any more
  (`MalformedReplyStalls`).
- LRU inclusion needs no assumption on the clock. A cache with room for every key loses a value
  exactly when a lookup has seen it expired (`HeldUnlessSeenExpired`).

## Model

| member | source | states |
|---|---|---|
| Quantiles.OrderStatistic | cact/protocol_v2.py:565-567 | the k-th sorted draw is at most v exactly when more than k draws are: sorting is characterised by counting |
| Quantiles.QuantileMonotone | cact/protocol_v2.py:564-568 | raising draws pointwise never lowers any linear-interpolation quantile |
| Quantiles.QuantileByCounting | cact/protocol_v2.py:564-568 | a quantile is at most v only if more than k draws are, for each rank k up to alpha (n - 1), and is as soon as more than k are for a rank from there on: it is the alpha end of the draws |
| Quantiles.QuantileOfRamp | cact/protocol_v2.py:564-568 | on evenly spaced draws the quantile is the point alpha (n - 1) of the line they lie on |
| Quantiles.QuantileScaled | cact/protocol_v2.py:564-568 | scaling the draws scales the quantile |
| CapDraws.CapMonotoneInBudget | cact/protocol_v2.py:558-570 | with a non-negative parameter the admission scalar rises with the budget share, and no other score depends on it |
| CapDraws.CapAntitoneInLambda | cact/protocol_v2.py:558-570 | the admission scalar falls as the conservatism parameter grows; the absolute-risk bound does not move |
| Admission.Chosen | cact/protocol_v2.py:718-731 | the context level used is a usable one, and none is usable when none is chosen |
| Admission.AdmissionPolicy.constructor | cact/protocol_v2.py:631-640 | the initial budget is clamped at zero and no episode has a stored budget |
| Admission.AdmissionPolicy.BudgetBefore | cact/protocol_v2.py:679-680 | an episode enters at the initial budget on first sight; no other entry changes |
| Admission.AdmissionPolicy.Decide | cact/protocol_v2.py:707-757 | the certificate is the one of the stored budget, context search, scores and test order, and only this episode's budget changes, by exactly the clamped charge of an admission |
| AdmissionRuns.ChosenIsFirst | cact/protocol_v2.py:718-729 | the level used is the most specific usable one |
| AdmissionRuns.CertificateExplainsDecision | cact/protocol_v2.py:707-757 | a certificate admits exactly when its own recorded scores and budget meet every condition and a usable context exists, and each refusal names a condition that failed |
| AdmissionRuns.AdmitMonotoneInBudget | cact/protocol_v2.py:707-757 | what is admitted under a budget is admitted, at the same level and charge, under a larger one by the pointwise policy, for every variant |
| AdmissionRuns.LevelIgnoresLedger | cact/protocol_v2.py:718-729 | the chosen level does not depend on the ledger |
| AdmissionRuns.LedgerWithinPointwise | cact/protocol_v2.py:707-757 | over any interleaved stream and every variant, each ledger admission is a pointwise admission on the same evidence, and the ledger budget stays in [0, initial] |
| AdmissionRuns.OneCharge | cact/protocol_v2.py:747-755 | one decision: the budget never rises, what it loses plus the overshoot is the admitted charge, an overshoot is at most epsilon and empties the budget |
| AdmissionRuns.OvershootBound | cact/protocol_v2.py:747 | k overshooting admissions overshoot by at most k epsilon in all, and by nothing exactly when there are none |
| AdmissionRuns.AccountingFrom | cact/protocol_v2.py:679-680 | the accounting of one episode from any reachable ledger, inside any stream |
| AdmissionRuns.BudgetConservation | cact/protocol_v2.py:751-755 | over a run the stored budget stays in [0, initial] and the admitted charges are initial minus stored plus the overshoots, at most k epsilon |
| AdmissionRuns.OvershootGuard | cact/protocol_v2.py:707-755 | a decision overshoots exactly when the opportunity is eligible and applicable, a context is chosen, its scores at the reserved share pass the risk, margin and cap tests, and its charge is above the budget by at most epsilon |
| AdmissionRuns.CertificateAt | cact/protocol_v2.py:707-757 | each certificate of a run is the decision on its event against the budgets the earlier events left |
| AdmissionRuns.WithinBudgetIff | cact/protocol_v2.py:747-755 | an episode bears at most its initial budget exactly when none of its events meets those guards against the budget standing when it comes up |
| AdmissionRuns.OneAdmissionCanOvershoot | cact/protocol_v2.py:747-755 | a concrete policy and opportunity that bear more risk than the whole budget |
| AdmissionRuns.EpisodeIsolation | cact/protocol_v2.py:679-692 | in an interleaved stream an episode's certificates and budget are those of a fresh policy on its own opportunities |
| AdmissionLaws.CapByCounting | cact/protocol_v2.py:558-563 | for any draws the admission scalar is positive when few draws fail to pay for their harm and not when many do, counted against the rank alpha (n - 1) |
| AdmissionLaws.BoundsByCounting | cact/protocol_v2.py:564-567 | the recorded benefit bound is at the alpha end of its draws and both risk bounds are at the 1 - alpha end of theirs, by counting |
| AdmissionLaws.DrawsUsed | cact/protocol_v2.py:534-556 | stored draws count exactly when each array has 32, as far as all three reach; else only the generated ones |
| AdmissionLaws.BreakEven | cact/protocol_v2.py:707-757 | on evidence without spread the policy admits exactly when the absolute risk is in bounds, the budget covers the harm up to epsilon, and benefit times the reserved share plus epsilon exceeds lambda times harm times the benefit scale |
| AdmissionLaws.MarginsBreakEven | cact/protocol_v2.py:730-750 | the margin ablation decides by the same law on point estimates widened by lambda standard errors, with its two further tests |
| AdmissionLaws.ProtectionIsFree | cact/protocol_v2.py:558-570 | draws with no positive harm cost nothing: the scalar times the benefit scale is the benefit bound, whatever lambda and the share, and nothing is charged |
| AdmissionLaws.WorseEvidenceAdmitsLess | cact/protocol_v2.py:707-757 | lowering benefit or raising harm, absolute risk or uncertainty, draw by draw under any keys, never raises the scalar, never lowers the charge and never turns a refusal into an admission, in any variant |
| AdmissionLaws.EvenSplit | cact/protocol_v2.py:707-711 | the share times one plus the remaining opportunities is the budget |
| AdmissionLaws.ReserveAdmitsLess | cact/protocol_v2.py:707-757 | with more opportunities to reserve for, the share is no larger and nothing new is admitted |
| AdmissionLaws.ReserveCount | cact/protocol_v2.py:682-692 | the reserve is the entry of the first of opportunity, episode and task id in the lookup, else the declared count, clipped to [0, future clip]; none for a non-number or in the myopic variant |
| Calibrator.AdmittedNested | cact/protocol_v2.py:582-591 | a larger parameter admits a subset, never more than the supported estimates |
| Calibrator.AdmittedMeaning | cact/protocol_v2.py:582-591 | exactly the supported estimates that pass both tests are admitted |
| Calibrator.CoverageAntitone | cact/protocol_v2.py:603 | coverage does not rise with the parameter |
| Calibrator.Candidate | cact/protocol_v2.py:582-591 | the loop returns the supported and the admitted estimates in order |
| Calibrator.Select | cact/protocol_v2.py:593-610 | for any order of the grid the result is the artifact of the least parameter; without support it is the largest parameter with nothing admitted, marked supported when any estimate exists |
| Calibrator.ByKeyContents | cact/protocol_v2.py:602 | a table by key holds only listed estimates, every key, and with distinct keys every estimate |
| Calibrator.AuditIff | cact/protocol_v2.py:612-626 | an artifact selected on one split passes the audit on any other exactly when it is not empty and, under each of its keys, the other split has a last supported estimate that is admissible |
| Calibrator.SelfAuditIff | cact/protocol_v2.py:612-626 | an artifact audited on its own estimates passes exactly when it admits something and the last supported estimate under each of its keys is admissible |
| Calibrator.SelfAudit | cact/protocol_v2.py:612-626 | with one estimate under each key: exactly when it admits something |
| Calibrator.OnlineAgreesWithSelection | cact/protocol_v2.py:582-591 | with the default budget and nothing to reserve for, the online policy refuses evidence the calibrator kept only for lack of budget |
| CrossFit.ClipPropensity | cact/protocol_v2.py:75-76 | the result lies in [0.2, 0.8] and leaves that window alone |
| CrossFit.Run | cact/protocol_v2.py:353-387 | the loops over folds and rows compute the fold-by-fold scores |
| CrossFit.TrainingExcludesEpisode | cact/protocol_v2.py:362 | without external rows no row of an episode helps to score that episode |
| CrossFit.VisitedPermutes | cact/protocol_v2.py:360-361 | visiting fold by fold neither loses nor repeats a row |
| CrossFit.EachRowOnceOutOfFold | cact/protocol_v2.py:353-387 | every eligible labelled row is scored exactly once by models fitted without its episode |
| CrossFit.EligibleExactly | cact/protocol_v2.py:354-356 | a row is used as often as it was logged when it is eligible, not censored, without second intervention and fully labelled, else never |
| CrossFit.TrainingIsOtherFolds | cact/protocol_v2.py:361-362 | without external rows an episode is predicted from exactly the eligible rows of the other folds |
| CrossFit.FoldCount | cact/protocol_v2.py:357-358 | as many folds as asked for, between one and the number of episodes |
| Expectation.ExpectIsWeightedSum | cact/protocol_v2.py:272-280 | the expectation used below is the probability-weighted sum over all assignment vectors |
| Expectation.VectorsExhaustive | cact/protocol_v2.py:272-280 | each of the 2^n assignment vectors is listed exactly once |
| Unbiased.ContrastUnbiased | cact/protocol_v2.py:371-373 | averaging the scores over the arm cancels any predictions and leaves the true contrast |
| Unbiased.TrainingIgnoresOwnArm | cact/protocol_v2.py:360-366 | flipping a unit's assignment changes none of the rows it is predicted from |
| Unbiased.RowUnbiased | cact/protocol_v2.py:367-373 | each pseudo-outcome has its own unit's true value as expectation |
| Unbiased.FoldsFixed | cact/protocol_v2.py:357-359 | the folds do not depend on the assignment |
| Unbiased.DesignUnbiased | cact/protocol_v2.py:353-387 | over all assignments the mean of phi_y, phi_h and psi_h1 is the mean of y1-y0, h1-h0 and h1 over the eligible labelled units, for any learner, fold hash and external rows |
| GroupUnbiased.GroupOfScores | cact/protocol_v2.py:450-451 | grouping the scored rows by key and scoring the units of one group give the same rows |
| GroupUnbiased.EstimateIsMean | cact/protocol_v2.py:464-466 | the point estimates of a group are the means of the pseudo-outcomes of its rows |
| GroupUnbiased.GroupsFixed | cact/protocol_v2.py:450-451 | which groups a log has does not depend on the assignment |
| GroupUnbiased.EstimateUnbiased | cact/protocol_v2.py:448-471 | for each level and each key with an eligible labelled unit, the expected raw delta_y, risk_inc and risk_abs of the group are the true means over its units, for any learner, fold hash, external rows and resampling |
| ExactScores.ScoreError | cact/protocol_v2.py:367-386 | each logged row belongs to one unit, reports its arm and outcome, and each score is off by exactly what the predictions for that unit's two arms leave unexplained, over e or -(1 - e), for any predictions and propensities |
| ExactScores.ExactPredictions | cact/protocol_v2.py:365-373 | where the models predict both potential outcomes of a unit, its row has phi_y = y1 - y0, phi_h = h1 - h0 and psi_h1 = h1 under every assignment and any propensity |
| ExactScores.ExactGroup | cact/protocol_v2.py:448-471 | with such predictions for its units a group's raw estimate is the truth under every assignment |
| ArmWeights.ArmWeightsUnbiased | cact/protocol_v2.py:454 | for each level and key the expected weight of either arm is the number of units of the group |
| OpportunityLog.Validate | cact/protocol_v2.py:240-253 | exactly which rows are accepted; a positivity error means nothing before it was wrong |
| OpportunityLog.UnbiasedIffInWindow | cact/protocol_v2.py:75-76 | clipping the propensity keeps every contrast unbiased exactly inside the window |
| OpportunityLog.ValidatedLogUnbiased | cact/protocol_v2.py:240-253 | design unbiasedness with no assumption on propensities but that every row passed validation |
| Evidence.EssBetweenOneAndN | cact/protocol_v2.py:454-455 | the effective sample size of a group lies between 1 and its number of rows |
| Evidence.CrossFitIsWeighable | cact/protocol_v2.py:370-386 | every cross-fitted row has a propensity strictly between 0 and 1, so aggregation accepts it |
| Evidence.NestsIffSameScarcity | cact/protocol_v2.py:424-428 | contexts of one g1 group share the g2 group exactly when their scarcity agrees, whatever else differs, for separator-free source, type and task group |
| Evidence.LevelOneDoesNotNest | cact/protocol_v2.py:424-428 | two contexts of one g1 group in different g2 groups |
| Evidence.OmegaStrict | cact/protocol_v2.py:479-480 | with an effective sample size of at least one, a blend uses both the estimate and its parent |
| Evidence.RawEssInRange | cact/protocol_v2.py:448-480 | every estimate aggregation makes has an effective sample size between 1 and its number of rows and a weight strictly between 0 and 1 |
| EvidenceShares.SupportedIff | cact/protocol_v2.py:451-469 | a raw estimate counts the rows of either arm under its key, and is supported exactly when each arm has twelve and the effective sample size is at least 24 |
| EvidenceShares.EssByWeights | cact/protocol_v2.py:454-455 | with weights inverse to the probability of each row's own arm, the effective sample size times the sum of their squares is the square of their sum |
| EvidenceShares.EssOfEqualWeights | cact/protocol_v2.py:454-455 | equally weighted rows are all effective |
| Evidence.KeysAscending | cact/protocol_v2.py:450 | the group keys of a level come in strictly ascending order |
| Evidence.IndexByKey | cact/protocol_v2.py:474 | the table by key holds the last estimate carrying each key |
| Evidence.RawWellParented | cact/protocol_v2.py:448-471 | every estimate below the top level finds a parent on a strictly coarser level, and the top level has none |
| Evidence.GroupEstimate.Absorb | cact/protocol_v2.py:478-494 | blending with a parent changes the child as given, aligned draws included, and leaves the parent alone |
| Evidence.FlowLevel | cact/protocol_v2.py:475-494 | handling one level after the coarser ones blends each of its estimates with its already blended parent and touches no other |
| Evidence.Flow | cact/protocol_v2.py:475-494 | the in-place pass in level order leaves every estimate blended with its already blended parent |
| Evidence.EstimateLevel | cact/protocol_v2.py:448-471 | the raw estimates of one level, newly allocated |
| Evidence.Aggregate | cact/protocol_v2.py:421-495 | grouping, raw estimation and the pass together |
| EvidenceFlow.ChainConvex | cact/protocol_v2.py:479-484 | the weights along a chain of ancestors are in [0, 1] and sum to one |
| EvidenceFlow.FlowIsChainMean | cact/protocol_v2.py:475-494 | any blended quantity ends as the weighted mean of its raw values along the chain |
| EvidenceFlow.SupportAlongChain | cact/protocol_v2.py:488 | an estimate ends supported exactly when it or an ancestor was |
| EvidenceFlow.EvidenceFlowsDown | cact/protocol_v2.py:475-494 | the three point estimates and, given 32 draws, each draw of the three arrays are one and the same convex combination, so draws stay paired; with fewer, the draws are untouched |
| EvidenceFlow.AggregatedEvidence | cact/protocol_v2.py:421-495 | for the estimates of any pseudo-rows the chains reach the top level, the weights are convex, none of them is zero, and support is inherited |
| EvidenceShares.ParentCountsForTwentyFour | cact/protocol_v2.py:475-494 | after the pass an estimate is its own evidence, counted with its effective sample size, pooled with its parent's, counted as 24 rows: (ess + 24) after = ess own + 24 parent for the three point estimates and, given 32, each draw |
| EvidenceShares.MoreEvidenceKeepsMore | cact/protocol_v2.py:479-484 | more effective rows behind the same figures mean a larger own share and a result strictly closer to the estimate's own |
| Lookup.KeysAgree | cact/protocol_v2.py:718-722 | the four keys a decision looks up are the keys the four levels are aggregated under |
| Lookup.SameGroupIff | cact/protocol_v2.py:424-428 | with separator-free fields two contexts share a group on a level exactly when the eight, six, four or two fields of that level agree |
| Lookup.SeenContextsAreFound | cact/protocol_v2.py:424-450 | a context that occurs among the pseudo-rows has an estimate under each of its four keys |
| VlmCache.VLMCache.constructor | experiments/vlm_cache.py:28-34 | an empty cache with zero counters |
| VlmCache.VLMCache.Get | experiments/vlm_cache.py:56-71 | a fresh entry is returned and becomes most recent, an expired one is deleted, and exactly one counter moves |
| VlmCache.VLMCache.Set | experiments/vlm_cache.py:73-85 | the entry becomes most recent and the oldest are evicted down to capacity |
| VlmCache.IncludedStep | experiments/vlm_cache.py:56-85 | one call keeps the smaller cache the larger one restricted to its keys, and a hit in it is the same hit in the larger |
| VlmCache.LargerCacheAnswersMore | experiments/vlm_cache.py:56-85 | on any trace and any clock, enlarging the cache never turns a hit into a miss or another answer |
| VlmCache.RunSound | experiments/vlm_cache.py:56-85 | every held entry is the last one written under its key |
| VlmCache.HeldUnlessSeenExpired | experiments/vlm_cache.py:56-85 | with room for every key written, on any clock, the last write is held exactly until a lookup finds it expired |
| VlmCache.FreshNeverSeenExpired | experiments/vlm_cache.py:62-69 | on a monotone clock what is fresh now has never been seen expired |
| VlmCache.NothingLost | experiments/vlm_cache.py:56-85 | with room for every key written and a monotone clock a still fresh write is still held |
| VlmCache.AnswersAreFreshLastWrites | experiments/vlm_cache.py:56-85 | a hit is the last write, younger than the time to live; with enough room every such value is a hit exactly when no lookup since has found it expired, and always on a monotone clock |
| CacheRecency.HeldIff | experiments/vlm_cache.py:56-85 | a key is held exactly when it was used, no lookup since its last write found it expired, and at no moment since its last write or hit were there as many more recent keys as there is room; the entries behind a held one are exactly those keys |
| CacheRecency.EntriesInOrderOfUse | experiments/vlm_cache.py:63-65 | of two entries the later one is the one whose key was written or hit later |
| CacheRecency.AnsweredIff | experiments/vlm_cache.py:56-85 | exactly what each lookup of a trace answers, by that condition and freshness, for any capacity and clock |
| CacheRecency.RecentlyUsedIsAnswered | experiments/vlm_cache.py:56-85 | a key whose last write or hit is followed by calls on fewer other keys than the capacity, and that no lookup has found expired, is answered while fresh |
| BatchProxy.BatchProxy.constructor | experiments/batch_proxy.py:22-28 | the initial state |
| BatchProxy.BatchProxy.SubmitSection | experiments/batch_proxy.py:33-38 | the submit lock section is the submit step; a timer starts only for the first request of an idle proxy |
| BatchProxy.BatchProxy.TakeSection | experiments/batch_proxy.py:45-63 | the first lock section of a flush is the take step |
| BatchProxy.BatchProxy.ReplyArrives | experiments/batch_proxy.py:54-65 | any reply of the backend: one that can be indexed, too short ones and errors included, is handed over; any other kills the flush and leaves the flag |
| BatchProxy.BatchProxy.DeliverNext | experiments/batch_proxy.py:57-65 | the next ticket gets the response at its own index, or the missing error |
| BatchProxy.BatchProxy.RearmSection | experiments/batch_proxy.py:67-74 | the second lock section of a flush is the re-arm step |
| BatchProxy.WakerStep | experiments/batch_proxy.py:30-74 | each step but a malformed reply keeps: at most one timer or flush, the flag tells whether there is one, a waiting queue implies the flag, a pending timer implies a waiting queue; a malformed reply stalls the proxy |
| BatchProxy.StalledStep | experiments/batch_proxy.py:33-38 | a stalled proxy only accepts requests, and answers nothing |
| BatchProxy.FifoStep | experiments/batch_proxy.py:30-74 | each step keeps answered, lost, in flight and queued, in this order, equal to all tickets in order |
| BatchProxy.NoLostWakeup | experiments/batch_proxy.py:45-74 | in every interleaving a flush never finds the queue empty, and the timer discipline holds, with a timer or flush at work while a ticket is unanswered, exactly when no batch of two or more got a malformed reply |
| BatchProxy.ExactlyOnceInOrder | experiments/batch_proxy.py:32-65 | every ticket is in exactly one of queued, in flight, answered or lost, answered once and in order; the request count is the sum; tickets are lost exactly when a reply was malformed |
| BatchProxy.MalformedReplyStalls | experiments/batch_proxy.py:57-74 | a run with one malformed reply after which nothing is ever answered and no timer is started |
| BatchReplies.AnswersFollowReplies | experiments/batch_proxy.py:45-65 | on every run each answered ticket was in a batch that got a reply, and its answer is the reply at its own index there, or the missing error exactly when that reply is too short; while no batch is being handed over, all tickets of such batches are answered |
| BatchReplies.EveryTicketGetsItsOwnReply | experiments/batch_proxy.py:56-65 | with a backend that replies in order, and may answer equal requests differently, the i-th ticket gets the i-th response, or the missing error exactly when the reply to its batch left it out; so always its response when replies are as long as their batches |
| BatchReplies.BatchesAreCounted | experiments/batch_proxy.py:60-62 | on every run the batch counter is the number of batches of two or more, replied to, posted or lost |
| BatchProxy.AnsweredByTheSecondCompletion | experiments/batch_proxy.py:45-74 | a ticket is answered no later than the second flush completion after its submission |
| BatchProxy.SubmitFreeRunsAreShort | experiments/batch_proxy.py:45-74 | without new submissions the proxy can take only finitely many steps, by an explicit bound |
| BatchProxy.DrainsCompletely | experiments/batch_proxy.py:45-74 | when it can take no further step of its own, every ticket has been answered exactly when no batch of two or more got a malformed reply |
| Holm.SortedIndicesComplete | analysis/bootstrap.py:54 | the sorted list is a permutation of the indices in ascending order of p-value |
| Holm.PrefixPasses | analysis/bootstrap.py:56-60 | passing every loop threshold up to a position is passing the threshold set by how many values are smaller, ties included |
| Holm.HolmCorrection | analysis/bootstrap.py:51-61 | a hypothesis is rejected exactly when every p-value up to its own passes |
| Holm.RejectionNeedsSmallValue | analysis/bootstrap.py:51-61 | rejecting a member of an index set takes some p-value of the set at or below 0.05 over its size |
| Holm.HolmIsClosedTest | analysis/bootstrap.py:51-61 | a hypothesis is rejected exactly when the Bonferroni test rejects every index set holding it |
| Holm.LoweringKeepsRejections | analysis/bootstrap.py:51-61 | lowering p-values never un-rejects a hypothesis |
| Holm.ContainsBonferroni | analysis/bootstrap.py:51-61 | whatever plain Bonferroni rejects is rejected |
| FamilyWise.FamilyWiseErrorControlled | analysis/bootstrap.py:51-61 | over any finite probability space, with any dependence, some true hypothesis is rejected with probability at most 0.05 |
| Bytes.DecodeBigEndian | minerl/minerl/env/comms.py:56-65 | a length that fits its field survives packing and unpacking |
| Comms.SendMessage | minerl/minerl/env/comms.py:55-58 | a message that fits is written as one frame, a longer one is refused before anything is written |
| Comms.RecvAll | minerl/minerl/env/comms.py:69-77 | however the stream is cut up, exactly the asked bytes are read, or nothing when the stream ends first |
| Comms.RecvMessage | minerl/minerl/env/comms.py:61-66 | the result depends on the bytes alone |
| Comms.PrefixRoundTrip | minerl/minerl/env/comms.py:55-77 | from any prefix of a framed conversation the complete messages come in order and then only None, never a partial message |
| Comms.RoundTrip | minerl/minerl/env/comms.py:55-77 | what is sent, empty messages included, is received in order |
| Comms.FramesAppend | minerl/minerl/env/comms.py:55-58 | one more send extends the stream by one frame |
| Comms.FrameLayout | minerl/minerl/env/comms.py:55-58 | a message can be sent exactly when its length fits in 32 bits, and travels behind that length in four bytes, most significant first |
| Snapshot.CanonicalHash | experiments/collect_world_snapshots.py:22-40 | the digest of the canonical stream, or the error of a missing directory, an empty selection or an oversized field |
| Snapshot.SortSpec | experiments/collect_world_snapshots.py:34 | sorting gives the same files in strictly ascending order of path |
| Snapshot.FilterSpec | experiments/collect_world_snapshots.py:25-31 | exactly the non-volatile files are kept |
| Snapshot.CanonicalInDirectory | experiments/collect_world_snapshots.py:18-31 | a file in a directory counts exactly when its own name and the directory's parts, at any depth, are not volatile |
| Snapshot.StreamInjective | experiments/collect_world_snapshots.py:33-39 | the stream is uniquely decodable |
| Snapshot.StreamIdentifiesFiles | experiments/collect_world_snapshots.py:22-40 | two enumerations give one stream exactly when the same files with the same contents count |
| Sanitizer.GroupBy | cact/bank_sanitizer.py:131-137 | one pass files every item under its key, in order, with keys in order of first appearance |
| Sanitizer.BankSanitizer.ClusterSimilar | cact/bank_sanitizer.py:159-188 | the nested scans compute the greedy clusters |
| Sanitizer.ClustersPartition | cact/bank_sanitizer.py:159-188 | the clusters partition the items |
| Sanitizer.ClustersAreGreedy | cact/bank_sanitizer.py:159-188 | members resemble their leader and nothing resembles the leader of an earlier cluster |
| Sanitizer.BestIsFirstMaximum | cact/bank_sanitizer.py:212-227 | the best of a cluster is the first of those nothing beats |
| Sanitizer.BankSanitizer.Partition | cact/bank_sanitizer.py:101-110 | complete and quarantined candidates, each in order |
| Sanitizer.BankSanitizer.Deduplicate | cact/bank_sanitizer.py:129-157 | the kept items, group by group, and one log entry per dropped item |
| Sanitizer.BankSanitizer.MergeSameType | cact/bank_sanitizer.py:230-269 | the survivors in order, then one generalized item per merged group, and one log entry per source |
| Sanitizer.BankSanitizer.Sanitize | cact/bank_sanitizer.py:58-98 | the whole pipeline and the whole log, which starts afresh |
| Sanitizer.RemoveEachIsFilter | cact/bank_sanitizer.py:257-260 | removing the members of a group one by one removes exactly the group and keeps the order |
| Sanitizer.MostObservedIsFirstMaximum | cact/bank_sanitizer.py:302-303 | the base of a generalized item is the first of those with the most observations |
| Sanitizer.GeneralizeKeepsKey | cact/bank_sanitizer.py:293-314 | a generalized item is filed under the key of its sources, so no later group can swallow it |
| Sanitizer.MergeGroupsAreUniform | cact/bank_sanitizer.py:271-277 | the items of a group to merge have one kind and one task group |
| Sanitizer.SanitizeAccounting | cact/bank_sanitizer.py:58-98 | every candidate is quarantined, dropped, merged or surviving, each exactly once, and the output is the survivors plus one item per merged group |
| Sanitizer.LogAccounting | cact/bank_sanitizer.py:71-90 | the log names, in order, exactly the candidates that do not survive |
| Sanitizer.DropsAreJustified | cact/bank_sanitizer.py:147-155 | each dropped item shares a cluster with an item that is kept and is not worse |
| SanitizerLaws.SimilarIff | cact/bank_sanitizer.py:190-210 | items resemble each other, symmetrically, exactly when both have words and the words they share exceed the threshold times the words they have together |
| SanitizerLaws.KeptHasGreatestScore | cact/bank_sanitizer.py:212-227 | what is kept of a cluster is its first item with the greatest tuple of completeness, observations, minus harms and timestamp, compared at the first difference |
| SanitizerLaws.MergedIff | cact/bank_sanitizer.py:271-291 | a group of mergeable items is merged exactly when it has two or more items whose preconditions follow at most three patterns; the test for one kind never fails |
| SanitizerLaws.MergeKeyIff | cact/bank_sanitizer.py:236-244 | three kinds are merged, and two items meet in a group exactly when kind and task group agree |
| SanitizerLaws.OfferedIsSound | cact/bank_sanitizer.py:58-98 | everything offered for admission has a gene, a kind, a scope and a safety boundary, is not registered yet, and is a candidate or stands for at least two candidates of its kind and task group |
| NearDuplicates.KeptApartIff | cact/bank_sanitizer.py:145-157 | for any group, repeated items included: it comes out without near-duplicates for every tokenizer and threshold exactly when, among its different items in order of first appearance, none beats an earlier one, except that the last may beat the one just before it |
| NearDuplicates.FailingTexts | cact/bank_sanitizer.py:190-210 | for every other group, and whatever words its items have anyhow, further words make it keep two near-duplicates at the default threshold |
| NearDuplicates.KeptItemsCanResemble | cact/bank_sanitizer.py:145-150 | three items, tokenized by the words of their genes, of which two near-duplicates are kept |
| Lifecycle.LifecycleManager.constructor | cact/lifecycle_manager.py:67-77 | no states and no histories |
| Lifecycle.LifecycleManager.GetState | cact/lifecycle_manager.py:98-103 | an unknown id is a candidate |
| Lifecycle.LifecycleManager.Transition | cact/lifecycle_manager.py:121-154 | an allowed move sets the state and appends its event; a refused one changes nothing and says why |
| Lifecycle.LifecycleManager.AutoTransition | cact/trust_store.py:200-203 | a proposed state goes through the same guard |
| Lifecycle.LifecycleManager.ForceDisable | cact/lifecycle_manager.py:204-206 | disabling always succeeds |
| Lifecycle.SuggestionsAreAllowed | cact/lifecycle_manager.py:156-202 | every automatic proposal strictly raises the rank |
| Lifecycle.HistoryIsChain | cact/lifecycle_manager.py:121-154 | a history is an unbroken chain of allowed moves from candidate to the present state |
| Lifecycle.ChainRises | cact/lifecycle_manager.py:134-139 | ranks rise strictly until disabled, after which nothing else follows |
| Lifecycle.LifecycleRuns | cact/lifecycle_manager.py:121-206 | over any run all of these hold, and at most five events change a state |
| Lifecycle.HistoryOnlyGrows | cact/lifecycle_manager.py:141-152 | a history is only extended, and disabled is never left |
| Lifecycle.AutoEventHasCause | cact/trust_store.py:200-203 | each event of an automatic run was appended by one evaluation, of the state before it, that proposed the state after it |
| Lifecycle.CertifiedOnlyThroughTheGate | cact/lifecycle_manager.py:179-182 | the step that certified an item in an automatic run found it in probation with evidence that passes the full gate |
| Lifecycle.DemotionsFromObservations | cact/lifecycle_manager.py:184-202 | at the observation call site the step that demoted a certified item saw a harm spike, and a disablement or a failed probation was made on its stated cause |
| Lifecycle.EvaluationMoves | cact/lifecycle_manager.py:156-202 | from each state exactly the causes on which one evaluation moves an item, and where to; no other item moves |
| Lifecycle.SteadyEvidenceSettles | cact/trust_store.py:200-203 | evaluated five times or more on steady evidence an item comes to rest at a state given in closed form; certified exactly when that evidence passes every gate on the way and shows no spike |
| Decay.UnitDecaysInRange | cact/temporal_decay.py:60-79 | while the posterior is in [0.1, 20], k unit decays are one decay over k units for any prior, and nothing is clipped when the prior is in range too |
| Decay.UnitDecaysComposeIff | cact/temporal_decay.py:60-79 | for any posterior, any prior and k >= 2 they agree exactly when the first decay is not clipped, or no further than the prior, or the whole decay reaches the opposite end of the range |
| Decay.TemporalDecay.constructor | cact/temporal_decay.py:35-42 | the given rate is clipped to the band, and lies in it when the band is not empty |
| Decay.TemporalDecay.Adapt | cact/temporal_decay.py:44-58 | the window keeps the last ten reports and the rate moves by its mean, never leaving a band it is in |
| Decay.WindowIsRecent | cact/temporal_decay.py:49-51 | after any run of reports the window is the last ten |
| Decay.LargeErrorsLowerRate | cact/temporal_decay.py:53-56 | reports all above 0.3 lower the rate by 0.03 each from the third on, down to its floor |
| Decay.SmallErrorsRaiseRate | cact/temporal_decay.py:53-58 | reports all below 0.1 raise it by 0.01 each from the third on, up to its ceiling |
| TrustStore.KeyParsesBack | cact/trust_store.py:91-92 | the statistic is always read back from a key, the id exactly when it has no separator |
| TrustStore.SameKeyIff | cact/trust_store.py:91-92 | two keys are one exactly when the statistic and the joined id and context agree |
| TrustStore.IdsCanCollideIff | cact/trust_store.py:91-92 | two ids can meet in one entry, in some contexts, exactly when they are equal or one begins with the other and a separator |
| TrustStore.KeysInjective | cact/trust_store.py:91-92 | ids without a separator never share an entry |
| TrustStore.SeparatorsCollide | cact/trust_store.py:91-92 | two different items with one key |
| TrustStore.EpisodeWeight | cact/trust_store.py:170-172 | each recorded weight lies in [1/0.95, 20] |
| TrustStore.WeightInverts | cact/trust_store.py:170-172 | for a propensity in [0.05, 0.95] each arm's weight times its probability is one |
| TrustStore.WeightStops | cact/trust_store.py:170-172 | outside, the weights stop at 20 and 1/0.95; without a propensity the arm taken was certain |
| TrustStore.TrustStore.constructor | cact/trust_store.py:42-44 | an empty store |
| TrustStore.TrustStore.GetStats | cact/trust_store.py:135-144 | reading an entry creates it at its prior and changes nothing else |
| TrustStore.TrustStore.Record | cact/trust_store.py:147-163 | one entry grows by the weighted outcome |
| TrustStore.TrustStore.RecordEpisode | cact/trust_store.py:165-191 | a use grows the use and harm entries, a fallback the base entry, and the observation is appended |
| TrustStore.TrustStore.TotalCount | cact/trust_store.py:230-233 | evidence beyond the prior |
| TrustStore.TrustStore.DecayAll | cact/trust_store.py:275-289 | every entry decays once toward the prior read off its key |
| TrustStore.EpisodeEffect | cact/trust_store.py:165-191 | for any ids, an episode changes exactly the entries it shares, and of these the statistics it reports |
| TrustStore.EntryAccounting | cact/trust_store.py:135-182 | without decay, for any ids, an entry is the prior of the first item recorded into it plus exactly the weighted evidence of all that share it |
| TrustStore.EvidenceAccounting | cact/trust_store.py:230-233 | an entry nothing else recorded shares is its item's prior plus exactly its own weighted evidence, and the total count is the sum of its weights |
| TrustStore.TotalIsOwnIff | cact/trust_store.py:230-233 | for any ids and priors, the total count is the sum of an item's own weights exactly when foreign evidence plus the difference of the two priors is zero, or negative where it has no evidence |
| TrustStore.TotalIsOwnUnlessForeign | cact/trust_store.py:230-233 | where the items that share an entry start from equally strong priors: exactly when nothing else reports into it |
| TrustStore.OwnPriorIff | cact/trust_store.py:275-289 | the prior an entry decays toward is its item's own, whatever the priors, exactly when the id has no separator and does not begin with `pair:` |
| TrustStore.DecaysTowardOwnPrior | cact/trust_store.py:275-289 | an entry whose id has no separator and does not begin with `pair:` decays toward the prior it was created from |
| ContextBucket.ComputeEce | cact/context_bucket.py:123-133 | the loop over five equal-count bins computes the error, zero below five observations |
| ContextBucket.EdgesAscend | cact/context_bucket.py:128 | the bins partition the sorted pairs and their sizes differ by at most one |
| ContextBucket.SortForgetsOrder | cact/context_bucket.py:125 | equal multisets of pairs sort to the same list |
| ContextBucket.SortsByConfidence | cact/context_bucket.py:125 | sorting keeps the pairs and puts lower confidence first |
| ContextBucket.ErrorSqueezed | cact/context_bucket.py:126-132 | the first bins' error lies between the net and the absolute gap of the pairs in them |
| ContextBucket.EceSqueezed | cact/context_bucket.py:123-133 | the error is at least the gap of the two means and at most the mean absolute gap |
| ContextBucket.EceForgetsOrder | cact/context_bucket.py:123-133 | the error does not depend on the order of the observations |
| ContextBucket.EceInUnit | cact/context_bucket.py:123-133 | for probabilities the error is in [0, 1] |
| ContextBucket.MaybeMerge | cact/context_bucket.py:85-110 | merge groups are disjoint, small and close to their first bucket; no small bucket left alone is close to an earlier group leader or to an earlier small bucket left alone |
| ContextBucket.Gather | cact/context_bucket.py:97-109 | one scan collects the unused small buckets close to the leader and misses none |

## Left out

- Floating point: values are exact reals, so NaN, infinities and rounding do not occur; standard errors and heterogeneity terms, which need square roots, are not part of this model.
- Randomness: bootstrap resampling and the normal draws for legacy estimates are inputs, equal-length arrays per key; the estimator's logistic fit is an arbitrary function of the training rows and the row's features.
- Interference: potential outcomes, eligibility and features of an opportunity are taken not to depend on the assignments of other opportunities.
- Episode ids are strings: the ledger is read under the id converted to text and written under the id itself (`cact/protocol_v2.py:680`, `:753`), which for other ids are two entries.
- Numeric demands of the libraries: `Policy.Valid` asks for alpha in [0, 1] and a positive `cap_epsilon`, without which `numpy.quantile` raises or the scalar divides by zero; monotonicity in the budget asks for a non-negative parameter.
- CrossFit.Run: folds are visited as 0, 1, ... including empty ones, which contribute nothing; the program visits the sorted fold numbers that occur.
- Applicability conditions, artifact loading, method names, persistence and schema defaults: loaded data are given values.
- OpportunityLog.Validate: required fields other than those it reads are one set of missing names; a propensity that does not convert to a number is not modelled.
- BatchProxy: starting a timer thread always succeeds; were it to raise (`experiments/batch_proxy.py:38`, `:74`), the flag would stay set with no timer.
- BatchProxy: a client that stops waiting after 30 seconds changes no proxy state and is not modelled; `batch_count` is moved in the take step although the program increments it outside the lock.
- VlmCache: keys are given strings, so hashing of images and task texts is left out, as are `stats`, `clear`, negative capacities and the unlocked miss counter.
- Comms: `struct` errors are one refused send; socket exceptions and retries are left out.
- Snapshot: path encoding is an arbitrary function, injective where a theorem needs it; files that change while they are read are left out.
- Sanitizer: items are values and input objects are taken to be distinct, so two candidates that are one object, and the status written back into quarantined items, are left out; tokenizing and pattern cutting are parameters.
- Lifecycle: registering an id again, which resets it to candidate, stored text that names no state, and event metadata are left out; that the gate blocks only disabled and deprecated items is not a lifecycle property.
- TrustStore: priors are a fixed function of statistic and id, so changes of contracts or empirical-Bayes estimates between calls are left out, as are pair records, quantile queries and the drift factor.
- ContextBucket: splitting a bucket and the Beta divergence itself are left out; the divergence is an arbitrary function.
- The bootstrap of `analysis/bootstrap.py`, report metrics, VLM server, HTTP handlers and environment processes have no state these theorems are about.
