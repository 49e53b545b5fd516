# Verified models of the evaluation and chat engines

Dafny models of the deterministic engines in this repository, with proofs of what they promise. One
module per component; helper modules hold what several share.

| component | modules |
|---|---|
| Retrieval evaluator: thresholds, abstention gate, calibration sweep, rank metrics, slices | `RetrievalThresholds`, `RetrievalGate`, `RetrievalSweep`, `SweepRows`, `RetrievalMetrics`, `RetrievalSlices`, `RetrievalValues` |
| Two-pass parallel memory evaluation | `MemoryCalls`, `ParallelPass`, `PassOneJoin`, `RecoveryPass`, `RecoveryTrace` |
| Prompt delimiters and U-shaped ordering | `Prompting`, `UShape` |
| Chat stream events, their parts and their wire form | `StreamEvents`, `StreamEventCodec`, `ChatEvidence`, `TaskProposals`, `JsonValues`, `WireForms`, `EventWireForm` |
| Chat activity lifecycle and wire form | `ChatActivities`, `ActivityCodec` |
| Ingestion timing join and latency report | `IngestionSamples`, `TimingJoin`, `TimingFields`, `TimingProperties`, `IngestionReport`, `ReportFields` |
| Bounded wait for an evaluation job | `IdleWait` |
| Redaction of evaluation-API responses | `Redaction`, `PrivateKeys` |
| Routing evaluator | `RouteConfusion` |
| Shared | `Wrappers`, `Ordering`, `Filtering`, `Text` |

Each engine is a function, or methods proved against one. Beside the properties of those functions stand modules
that read the results off the inputs alone: `SweepRows`, `RetrievalValues`, `PassOneJoin`, `RecoveryTrace`,
`TimingFields`, `ReportFields`, `WireForms` and `EventWireForm`.

Verify everything with `dafny verify dfyconfig.toml`.

## How the models are set up

- **Doubles** that the retrieval evaluator only compares are integer ranks among the finite doubles, the two
  zeros sharing one; `nextafter` is the successor, infinity the rank after the largest. Midpoint and difference
  are arbitrary functions, so the results hold for any rounding of either. Rates and metrics are exact reals,
  before `round(..., 4)`.
- **Concurrency**: the first pass is a state machine over events (a task advances by one step, a call replies,
  a call complains). Each sequence of events is one interleaving; semaphore, lock, shared transcript, queue
  and progress counter are explicit. Probe ids are taken to be distinct. Model calls are unconstrained.
- **Recovery** is a class whose fields the methods update in place; each method is proved against a function on
  the stored values, about which the properties are proved. What each call of the pass does is an oracle.
- **Prompt tags** are matched through an abstract case-insensitive character match of which only this is
  assumed: a letter of a tag matches itself, and no space or delimiter matches a letter.
- **Stream events** carry concrete parts: evidence, trace, activities and task proposals are modelled with the checks of
  their constructors and decoders. The one assumption is that a datetime's ISO string reads back as that datetime; how
  Python shows a JSON value that is not a string is a parameter.
- **Timing join**: the parser's output, that is its events and its error messages, is the input.
- **Idle wait**: the i-th poll and the i-th clock reading are arbitrary functions. Safety is proved for all of
  them; termination for those in which the interval passes between polls and the job changes finitely often.
- **Redaction** takes lower-casing as a parameter, **the latency report** case folding, of which only
  `fold("ready") != "failed"` is used.

## Where the code does not do what it says

- A retry announces that it resets the session cache of its call (scripts/evaluate_memory_parallel.py:282-284), but
  discards the key `<namespace>-<probe>-<arm>`, while sessions are marked as seeded under
  `memeval-<namespace>-<probe>-<arm>` (src/cowork_agent/features/ai_chat/memory_eval/live_runner.py:146). The reset
  never names the call's own session (`RetryNeverResetsItsSession`).
- Decoding an encoded stream event does not always return that event: datetimes in an artifact reference come back
  as strings, and members of plain enumerations as the values they stand for. `RoundTripExactIff` gives the exact condition,
  `ArtifactDatetimeIsLost` and `ArtifactMemberIsLost` an instance each. A task proposal is not concerned: the rule for
  proposals refuses both.
- `_jsonable` unwraps an enumeration member without converting its value, so the payload of a plain member that
  stands for a tuple, or another non-JSON value, is neither converted nor redacted. `PublicPayloadIdempotentIff` and
  `PublicPayloadSafeIff` give the exact conditions. Members of string and integer enumerations
  are treated as the strings and numbers they equal; the repository's own source defines string ones only.
- The samples of a timing join can depend on the order of the log when run-wide metadata is mixed; the join
  does complain about the mixture. `SamplesIgnoreOrderIff` says exactly which samples are concerned.

## Model

| member | source | states |
|---|---|---|
| `RetrievalSweep.SweepComplete` | scripts/evaluate_retrieval.py:200-256 | for every threshold there is a derived candidate with the same gated result list, whatever midpoint and difference round to |
| `RetrievalSweep.NothingObservedNothingGated` | scripts/evaluate_retrieval.py:208-209 | with no observed value there is no candidate, and no threshold changes anything |
| `RetrievalSweep.CandidatesOfResults` | scripts/evaluate_retrieval.py:270-278 | on well-formed results the default candidates are strictly increasing, finite, one more than the distinct observed values, and refused exactly when the largest double was observed |
| `RetrievalSweep.ObservedValuesHoldEveryGatedValue` | scripts/evaluate_retrieval.py:270-275 | the observed values are exactly the defined gated values of the cases in the score space, abstained or not |
| `RetrievalSweep.SweepReportsEveryThreshold` | scripts/evaluate_retrieval.py:276-341 | the default sweep already holds the row of any threshold, but for the threshold named in it |
| `RetrievalSweep.TradeOffIsMonotone` | scripts/evaluate_retrieval.py:284-339 | raising the threshold only adds abstaining cases; both abstention counts rise, every metric at either level falls, the scored populations stay |
| `RetrievalSweep.RowAccounting` | scripts/evaluate_retrieval.py:292-331 | in every row abstentions plus false answers are the unanswerable cases, and false abstentions are the inherited ones plus the newly affected |
| `RetrievalSweep.ObservedValueIff` | scripts/evaluate_retrieval.py:270-275 | candidates are derived from the first score, or the lead over the second, of each case scored in the space, and from nothing else |
| `SweepRows.CalibrationSweep` | scripts/evaluate_retrieval.py:259-341 | one row per threshold in order, or the error for underivable or non-finite thresholds; each row by the fields of the results: every listed id as often as it is listed, in code-point order, counts, exact rates, and the metrics of the withheld list |
| `SweepRows.RowIsStated` | scripts/evaluate_retrieval.py:279-339 | the four id lists, six counts, two rates and the metrics of a row, from case ids, labels, scores and statuses alone |
| `RetrievalThresholds.CandidateThresholds` | scripts/evaluate_retrieval.py:200-222 | the boundary-growing loop builds the closed form of one boundary per gap; its duplicate checks never drop any |
| `RetrievalThresholds.BoundariesInterleave` | scripts/evaluate_retrieval.py:210-218 | one candidate at the minimum, one between each two neighbouring values, one just above the maximum, for any midpoint |
| `RetrievalThresholds.BoundariesAreMidpoints` | scripts/evaluate_retrieval.py:213-217 | the candidate between two neighbours is their midpoint, unless rounding put it on or beyond one of them; then the higher |
| `RetrievalThresholds.BoundariesIncrease` | scripts/evaluate_retrieval.py:210-218 | the candidates are strictly increasing |
| `RetrievalThresholds.CandidateForThreshold` | scripts/evaluate_retrieval.py:210-218 | every threshold splits the observed values exactly as some candidate does |
| `RetrievalThresholds.CandidatesSeparate` | scripts/evaluate_retrieval.py:200-222 | a higher candidate accepts strictly fewer of the observed values: none is redundant |
| `RetrievalThresholds.CandidatesExistWhen` | scripts/evaluate_retrieval.py:207-222 | no candidate iff no value; an error iff the maximum has no finite successor |
| `RetrievalThresholds.CandidateCount` | scripts/evaluate_retrieval.py:207-222 | otherwise exactly one candidate more than distinct values, all finite |
| `RetrievalGate.SimulateGate` | scripts/evaluate_retrieval.py:225-256 | the loop withholds exactly the answered cases of the score space whose defined value lies below the threshold, and refuses a non-finite threshold |
| `RetrievalGate.GateKeepsWellFormed` | scripts/evaluate_retrieval.py:118-162 | a gate maps results the constructor accepts to results it accepts, makes exactly the cases it fires on abstain as well, and leaves ids, probes and labels alone |
| `RetrievalGate.ChainClosedForm` | scripts/evaluate_retrieval.py:225-256 | a chain of gates withholds a case iff one of its gates would withhold the original |
| `RetrievalGate.ChainDependsOnlyOnGateSet` | scripts/evaluate_retrieval.py:225-256 | the order and repetition of gates do not matter, across kinds and score spaces |
| `RetrievalGate.GatesCommute` | scripts/evaluate_retrieval.py:225-256 | any two gates commute |
| `RetrievalGate.SameKindGatesCompose` | scripts/evaluate_retrieval.py:225-256 | two gates over one quantity act as the one at the larger threshold |
| `RetrievalMetrics.RankMetricBounds` | scripts/evaluate_retrieval.py:400-419 | hit1 + (hit3-hit1)/3 <= MRR <= hit1 + (hit3-hit1)/2 + (1-hit3)/4 on every result list, per level |
| `RetrievalMetrics.RecallMetricBounds` | scripts/evaluate_retrieval.py:400-431 | 0 <= recall@k <= hit@k <= 1, and both are monotone in k |
| `RetrievalMetrics.CaseRecallBelowHit` | scripts/evaluate_retrieval.py:422-431 | a scored case has positive recall@k exactly when its first relevant rank is at most k |
| `RetrievalMetrics.RankFromIsFirst` | scripts/evaluate_retrieval.py:377-392 | the rank is that of the first relevant result, and absent iff there is none |
| `RetrievalMetrics.SectionRankNeverBetter` | scripts/evaluate_retrieval.py:377-392 | a section-level rank implies a document-level rank at least as good |
| `RetrievalMetrics.FindLabels` | scripts/evaluate_retrieval.py:547-556 | the set-growing loop finds exactly the expected labels carried by the first k relevant results |
| `RetrievalMetrics.GateMetricsMonotone` | scripts/evaluate_retrieval.py:400-446 | gating harder lowers no population and raises no metric |
| `RetrievalSlices.SliceByProbe` | scripts/evaluate_retrieval.py:472-479 | the slice loop builds the specified map from probe names to slices |
| `RetrievalValues.Aggregate` | scripts/evaluate_retrieval.py:469-479 | every number of the report from the cases: hits, reciprocal ranks and recalls averaged over the populations, exclusions, and for each probe of an answerable case the same over its answerable cases |
| `RetrievalValues.HitScoreIs` | scripts/evaluate_retrieval.py:400-410 | a scored case counts 1 for hit@k when one of its first k results is relevant, else 0 |
| `RetrievalValues.RankScoreIs` | scripts/evaluate_retrieval.py:395-419 | the reciprocal rank of a case times the rank of its first relevant result is 1, and it is 0 without one |
| `RetrievalValues.RecallScoreIs` | scripts/evaluate_retrieval.py:422-431 | recall@k times the number of expected labels is the number of distinct expected labels among the first k relevant results |
| `RetrievalValues.LevelStated` | scripts/evaluate_retrieval.py:400-466 | each reported mean times its population is the sum of these scores, and 0 on an empty population |
| `RetrievalSlices.ProbeNamesCover` | scripts/evaluate_retrieval.py:473-473 | the slice names are distinct and are exactly the probes of answerable cases |
| `RetrievalSlices.SlicesReassemble` | scripts/evaluate_retrieval.py:469-479 | at each level the slices' scored counts, read off the report through the excluded counts, add up to the whole, and every unrounded overall metric is their weighted mean |
| `ParallelPass.EveryMoment` | scripts/evaluate_memory_parallel.py:201-240 | under every interleaving: at most `concurrency` calls in flight, progress indices 1, 2, 3, ... without repeats, no two rows or queued calls for one (probe, arm) |
| `ParallelPass.AtJoin` | scripts/evaluate_memory_parallel.py:201-240 | at the join 3n indices and 3n rows exist, with no row, index or queued call repeated; what rows and queue hold is stated by PassOneJoin.JoinFollowsEvents |
| `PassOneJoin.JoinFollowsEvents` | scripts/evaluate_memory_parallel.py:201-240 | for every interleaving, from the events alone: three answers per task, one row per (probe, arm) with the fields of its answer, and one queue entry for exactly the calls left unanswered whose last complaint holds no contract-rejection code |
| `PassOneJoin.RejectedIff` | scripts/evaluate_memory_parallel.py:70-87 | a call counts as rejected by contract iff some line of the last complaint about it contains "chat_response_invalid" at some position |
| `PassOneJoin.ReasonIs` | scripts/evaluate_memory_parallel.py:90-94 | the queued reason is the trimmed text before the first colon of the first line, or "empty_reply" when there is none |
| `PassOneJoin.RunKeepsHistory` | scripts/evaluate_memory_parallel.py:163-240 | at every moment of every run, replies, rows and complaints are those of the events so far |
| `ParallelPass.InvStep` | scripts/evaluate_memory_parallel.py:176-238 | every step of every task keeps the lock, permit, progress, transcript and queue invariants |
| `ParallelPass.NoDeadlock` | scripts/evaluate_memory_parallel.py:217-238 | with at least one permit some task can move exactly as long as not all have finished |
| `ParallelPass.ZeroConcurrencyStops` | scripts/evaluate_memory_parallel.py:351-351 | with a semaphore of zero nothing can ever move |
| `ParallelPass.RunsAreBounded` | scripts/evaluate_memory_parallel.py:201-240 | no run makes more than ten moves per call, so every maximal run ends at the join |
| `MemoryCalls.UpsertIsTableWrite` | scripts/evaluate_memory_parallel.py:176-196 | writing a transcript row changes its own (probe, arm) alone and keeps the others where they were |
| `MemoryCalls.ComplaintsOfOthers` | scripts/evaluate_memory_parallel.py:82-87 | a complaint about another call leaves this call's error lines unchanged |
| `RecoveryPass.Session.RunRecoveryPass` | scripts/evaluate_memory_parallel.py:243-310 | the nested loops over calls and attempts leave the session as the recovery function says and return the calls it leaves |
| `RecoveryPass.Session.RetryCall` | scripts/evaluate_memory_parallel.py:266-299 | the attempt loop stops at the first answer or after the last attempt |
| `RecoveryPass.Session.RetryOnce` | scripts/evaluate_memory_parallel.py:273-297 | one attempt backs off, discards the key, asks, and keeps an answer in the arm map |
| `RecoveryPass.Session.ExecuteSingleArm` | scripts/evaluate_memory_parallel.py:124-198 | one call notes its complaints and writes its row |
| `RecoveryPass.Session.AskLive` | scripts/evaluate_memory_parallel.py:144-157 | an exception is noted as a complaint and reads as an empty text; a latency of zero is replaced by the measured one |
| `RecoveryPass.RecoverRemaining` | scripts/evaluate_memory_parallel.py:264-310 | the calls returned are those of the queue that are still unanswered, in their original order; the rest are answered |
| `RecoveryPass.RecoverFrame` | scripts/evaluate_memory_parallel.py:266-308 | only queued calls change, in the transcript and in the arm map |
| `RecoveryPass.RecoverAgrees` | scripts/evaluate_memory_parallel.py:286-298 | transcript and arm map still agree on every call: the same answer, or both unanswered |
| `RecoveryPass.RecoverKeepsRowOrder` | scripts/evaluate_memory_parallel.py:193-196 | recovery adds, drops and moves no transcript row |
| `RecoveryPass.RecoverCosts` | scripts/evaluate_memory_parallel.py:272-299 | at most a calls and a(a+1) seconds of backoff per queued call, and all of both for each call given up |
| `RecoveryPass.JoinIsReady` | scripts/evaluate_memory_parallel.py:374-388 | what pass one hands over satisfies all that recovery relies on |
| `RecoveryPass.WholeEvaluation` | scripts/evaluate_memory_parallel.py:358-388 | both passes together, for every interleaving and every behaviour of the model: one row per call in pass-one order, transcript and map reconciled, exact unrecovered list, at most 3n + a*failed calls |
| `RecoveryPass.AssembleRows` | scripts/evaluate_memory_parallel.py:391-407 | one report row per probe, in order: the probe's columns, each arm's outcome from that arm's map entry, certain iff all three are, the three latencies added |
| `RecoveryTrace.RecoverTrace` | scripts/evaluate_memory_parallel.py:243-310 | the second pass exactly: how its model calls divide among the queued calls, the row and map entry each ends with, the complaints filed, the seconds waited and the calls that remain |
| `RecoveryTrace.DivisionIsUnique` | scripts/evaluate_memory_parallel.py:272-299 | that division is determined by which model calls come back empty |
| `RecoveryTrace.RetryIs` | scripts/evaluate_memory_parallel.py:272-299 | one call's attempts: all but the last empty, the last only at the limit, with its row, entry, complaints and backoff |
| `RecoveryTrace.NoAttemptNoChange` | scripts/evaluate_memory_parallel.py:272-272 | without an attempt to make nothing changes and every queued call remains |
| `RecoveryTrace.EvaluationTrace` | scripts/evaluate_memory_parallel.py:358-388 | both passes together, from the events of the first and the model calls of the second alone |
| `RecoveryPass.ReconciledIsComplete` | scripts/evaluate_memory_parallel.py:392-395 | assembly never misses a probe or an arm |
| `RecoveryPass.ReportRowMatchesTranscript` | scripts/evaluate_memory_parallel.py:391-407 | a fully answered probe's report row is what the transcript's only rows for its three arms spell out, column by column |
| `RecoveryPass.RetryNeverResetsItsSession` | scripts/evaluate_memory_parallel.py:282-284 | the key a retry discards never names its own session, so the announced cache reset does not happen |
| `RecoveryPass.SessionKeys` | src/cowork_agent/features/ai_chat/memory_eval/live_runner.py:146-146 | the two session keys character by character: the one a call marks as seeded and the one its retry discards |
| `RecoveryPass.ArmMapEntries` | scripts/evaluate_memory_parallel.py:374-376 | with distinct probe ids the arm map holds each task's replies under its probe |
| `Prompting.NeutralizedIsTokenFree` | src/cowork_agent/prompting.py:33-36 | neutralized text contains no delimiter token, not even across a replacement's edge |
| `Prompting.NeutralizeIdempotent` | src/cowork_agent/prompting.py:33-36 | neutralizing twice is neutralizing once |
| `Prompting.UnchangedIffTokenFree` | src/cowork_agent/prompting.py:33-36 | exactly the token-free texts are left alone |
| `Prompting.KeepsTextOutsideTokens` | src/cowork_agent/prompting.py:33-36 | input and output are one segmentation read with tokens or with markers: all text outside tokens stays, in order |
| `Prompting.RemovedSegmentsAreTokens` | src/cowork_agent/prompting.py:29-36 | only matches of the pattern are removed |
| `Prompting.TokenHasParts` | src/cowork_agent/prompting.py:29-29 | what the recognizer accepts has the parts of the pattern: bracket, slash, spaces, tag in any case, spaces, slash, bracket |
| `Prompting.PartsMakeToken` | src/cowork_agent/prompting.py:29-29 | and every text of those parts is accepted |
| `Prompting.TokenLengthIsTheMatch` | src/cowork_agent/prompting.py:29-29 | a text starts with at most one token, which the scan finds |
| `Prompting.WrappedBlockHasTwoTokens` | src/cowork_agent/prompting.py:39-42 | a wrapped block contains exactly two tokens, at its two ends |
| `Prompting.UnwrapWrap` | src/cowork_agent/prompting.py:39-42 | reading a wrapped block returns its tag and the neutralized body, for every body |
| `Prompting.WrappedLayout` | src/cowork_agent/prompting.py:39-42 | the block is the opening delimiter, the neutralized body on lines of its own, and the closing delimiter |
| `Prompting.WrapDistinguishes` | src/cowork_agent/prompting.py:39-42 | two wrapped blocks are equal iff their tags and neutralized bodies are |
| `UShape.ReorderUShaped` | src/cowork_agent/prompting.py:51-69 | the two-list loop, with its shortcut for short inputs, sends even ranks to the front from the outside in and odd ranks to the back |
| `UShape.RankDecidesDistance` | src/cowork_agent/prompting.py:51-69 | the item of rank r sits exactly r/2 places from one end, so distance never falls with rank |
| `UShape.UShapedIsPermutation` | src/cowork_agent/prompting.py:51-69 | the output is a permutation of the input |
| `UShape.RestoreInverts` | src/cowork_agent/prompting.py:51-69 | an explicit function undoes the reordering, on both sides |
| `UShape.LastItemGoesInside` | src/cowork_agent/prompting.py:51-69 | appending a lowest-ranked item inserts it in the middle and reorders nothing else |
| `StreamEvents.FlattenFaithful` | src/cowork_agent/domain/_chat_contracts_chat.py:301-416 | the per-variant constructors lose nothing, and the validator accepts their records exactly for well-formed arguments |
| `StreamEvents.AcceptedRecordsAreVariants` | src/cowork_agent/domain/_chat_contracts_chat.py:194-299 | every accepted record is one a constructor builds: the records and the seven-constructor union are in bijection |
| `StreamEvents.AcceptedIff` | src/cowork_agent/domain/_chat_contracts_chat.py:194-299 | the flat record is accepted iff its payloads fit its type, listed payload by payload with their bounds |
| `StreamEvents.ConstructorsPlace` | src/cowork_agent/domain/_chat_contracts_chat.py:301-416 | where each constructor puts each argument, and that well-formed arguments are those giving a fitting record |
| `StreamEvents.RequiredPayloads` | src/cowork_agent/domain/_chat_contracts_chat.py:263-274 | which payloads an accepted record of each type carries and lacks |
| `StreamEvents.LooseCitationAcceptedIff` | src/cowork_agent/domain/_chat_contracts_chat.py:326-357 | a citation whose coordinates are given one by one is accepted iff they are all absent or form one well-formed bundle |
| `StreamEventCodec.DecodeEncode` | src/cowork_agent/domain/_chat_contracts_chat.py:418-506 | decoding an encoded valid event gives that event with the datetimes in its artifact references as strings and the plain enumeration members as the values they stand for |
| `StreamEventCodec.RoundTripExactIff` | src/cowork_agent/domain/_chat_contracts_chat.py:418-506 | the round trip is exact iff no artifact reference holds a datetime or a plain enumeration member |
| `StreamEventCodec.RoundTripExactUnlessCompleted` | src/cowork_agent/domain/_chat_contracts_chat.py:247-253 | so it is exact for every event that is not a completed one |
| `StreamEventCodec.ArtifactDatetimeIsLost` | src/cowork_agent/domain/_chat_contracts_chat.py:207-213 | a concrete completed event with a datetime in an artifact reference decodes to a different event |
| `StreamEventCodec.ArtifactMemberIsLost` | src/cowork_agent/domain/_chat_contracts_common.py:146-155 | so does a concrete one with a plain enumeration member there |
| `StreamEventCodec.DecodedEventsAreStable` | src/cowork_agent/domain/_chat_contracts_chat.py:422-506 | whatever decoding accepts has valid parts, passes the validator, and survives its own round trip exactly |
| `EventWireForm.EventDecodesIff` | src/cowork_agent/domain/_chat_contracts_chat.py:422-506 | decoding a mapping gives a record iff every one of the twenty-two fields spells out that record's own, and the record fits its type |
| `EventWireForm.EncodedSpellsOut` | src/cowork_agent/domain/_chat_contracts_chat.py:418-420 | the encoding of a valid event spells out the event, field by field |
| `WireForms.EvidenceDecodesIff` | src/cowork_agent/domain/_chat_contracts_memory.py:134-191 | evidence decodes from exactly the mappings with its eleven fields, each within its bounds |
| `WireForms.TraceDecodesIff` | src/cowork_agent/domain/_chat_contracts_memory.py:1046-1067 | a trace decodes from exactly the mappings whose fields spell it out, truthiness of the flag and absent file names included |
| `WireForms.DetailDecodesIff` | src/cowork_agent/domain/_chat_activity_contracts.py:65-86 | a detail decodes from exactly the mappings that hold its kind's word and its counts |
| `WireForms.ActivityDecodesIff` | src/cowork_agent/domain/_chat_activity_contracts.py:190-225 | an activity decodes from exactly the mappings that hold the words of its code, status and outcome, its detail and readable times, lawful for its status |
| `StreamEventCodec.NormalizeKeepsObjection` | src/cowork_agent/domain/_chat_contracts_chat.py:194-299 | replacing artifact datetimes and enumeration members by their wire forms never changes the validator's outcome |
| `TaskProposals.ProposalSurvivesWire` | src/cowork_agent/domain/_chat_contracts_chat.py:54-108 | a proposal the rule accepts holds no datetime and no plain enumeration member, and freezing its wire form gives it back |
| `TaskProposals.DraftAcceptedIff` | src/cowork_agent/domain/_chat_contracts_chat.py:54-108 | values for the eight fields make an accepted proposal iff each field accepts its own and the eligibility fits the status |
| `TaskProposals.ProposalAcceptedIff` | src/cowork_agent/domain/_chat_contracts_chat.py:54-108 | the same with every bound, status and the eligibility written out |
| `TaskProposals.CitationAcceptedIff` | src/cowork_agent/domain/_chat_contracts_memory.py:577-628 | a citation of four fields is accepted iff they are texts within their bounds, the section optional |
| `TaskProposals.DatetimeTitleIsRefused` | src/cowork_agent/domain/_chat_contracts_chat.py:61-61 | a datetime is refused as title where its ISO string would be accepted |
| `ChatEvidence.EvidenceRoundTrip` | src/cowork_agent/domain/_chat_contracts_memory.py:111-191 | retrieved evidence survives its own wire form iff its constructor accepts it |
| `ChatEvidence.TraceRoundTrip` | src/cowork_agent/domain/_chat_contracts_memory.py:1021-1067 | an execution trace survives its own wire form iff its constructor accepts it |
| `ChatEvidence.EvidenceDecodesValid` | src/cowork_agent/domain/_chat_contracts_memory.py:134-191 | decoding lets no evidence through that the constructor would reject |
| `ChatEvidence.TraceDecodesValid` | src/cowork_agent/domain/_chat_contracts_memory.py:1046-1067 | decoding lets no trace through that the constructor would reject |
| `ActivityCodec.ActivityRoundTrip` | src/cowork_agent/domain/_chat_activity_contracts.py:187-225 | an activity, its detail and its timestamps survive the wire form iff activity and detail could be constructed |
| `ActivityCodec.DetailRoundTrip` | src/cowork_agent/domain/_chat_activity_contracts.py:62-86 | the same for the detail alone, with its count bounds |
| `ActivityCodec.ActivityDecodesValid` | src/cowork_agent/domain/_chat_activity_contracts.py:190-225 | decoding lets no activity through that the constructors would reject |
| `JsonValues.FreezeJsonable` | src/cowork_agent/domain/_chat_contracts_common.py:121-155 | freezing the JSON of a context value gives the value with datetimes as strings and plain enumeration members as what they stand for |
| `JsonValues.NormalizeFixesIff` | src/cowork_agent/domain/_chat_contracts_common.py:121-155 | which is the value itself iff it holds no datetime and no such member |
| `JsonValues.JsonableIff` | src/cowork_agent/domain/_chat_contracts_common.py:121-132 | the JSON of a context value is leaf for leaf what the value holds: lists for tuples, objects for mappings, strings for datetimes |
| `JsonValues.FreezeIff` | src/cowork_agent/domain/_chat_contracts_common.py:146-155 | freezing JSON gives the one value it stands for that holds no datetime and no plain enumeration member |
| `ChatActivities.TransitionAcceptedIff` | src/cowork_agent/domain/_chat_activity_contracts.py:147-185 | exactly when a transition of a valid activity is accepted: aware time, permitted status, outcome only on completion, no end before the start |
| `ChatActivities.ValidIff` | src/cowork_agent/domain/_chat_activity_contracts.py:108-141 | an activity is valid iff its times, outcome and status agree, status by status |
| `ChatActivities.TransitionOutcome` | src/cowork_agent/domain/_chat_activity_contracts.py:147-185 | what a transition of a valid activity comes to: which of four errors comes first, or every field of the new activity |
| `ChatActivities.SnapshotOutcome` | src/cowork_agent/domain/_chat_activity_contracts.py:240-257 | a request to a valid snapshot is refused for an absent code and otherwise decided by the one activity with that code |
| `ChatActivities.StepChangesOneIndex` | src/cowork_agent/domain/_chat_activity_contracts.py:240-257 | an accepted step changes one index, to the requested status, times, outcome and detail, and keeps the snapshot valid |
| `ChatActivities.RunsEvolve` | src/cowork_agent/domain/_chat_activity_contracts.py:228-257 | every accepted run keeps validity, order and codes, never moves a set start and never touches a finished activity |
| `ChatActivities.RunsAreShort` | src/cowork_agent/domain/_chat_activity_contracts.py:160-173 | an accepted run over n activities has at most 2n steps |
| `ChatActivities.PermittedRunAccepted` | src/cowork_agent/domain/_chat_activity_contracts.py:147-185 | a run permitted by statuses alone, with aware timestamps that never go back, is accepted in full |
| `ChatActivities.FreshRuns` | src/cowork_agent/domain/_chat_activity_contracts.py:143-145 | so from an all-pending snapshot: accepted, valid, codes in order, short |
| `TimingJoin.IndexEvents` | e2e/helpers/ingestion-latency.ts:624-634 | after the loop the two maps tell, per document and stage, whether there are none, one or several events and which came first |
| `TimingFields.JoinBackendTimings` | e2e/helpers/ingestion-latency.ts:617-724 | every field of every sample and every complaint from positions in the log: the document's one event of the stage, else the last event of the run that carries the field |
| `TimingFields.SampleIsStated` | e2e/helpers/ingestion-latency.ts:662-715 | the fields of one sample: providers, host class, snapshot size, status and metrics, each from the events |
| `TimingFields.ErrorsAreStated` | e2e/helpers/ingestion-latency.ts:648-696 | which complaints the join makes: each kind exactly when its condition holds of the events |
| `TimingJoin.EventsFound` | e2e/helpers/ingestion-latency.ts:662-684 | looking a stage up in the maps finds the document's one event, and completeness and duplication are as counted |
| `TimingProperties.StageMetricIff` | e2e/helpers/ingestion-latency.ts:698-701 | a stage metric is present iff its document has exactly one event for the stage, and is then its duration |
| `TimingProperties.ReadyIff` | e2e/helpers/ingestion-latency.ts:678-687 | a sample is ready iff it was observed ready and all nine stages have one successful event and the three metadata fields are there |
| `TimingProperties.CompleteIff` | scripts/evaluate_ingestion_latency.py:221-229 | the latency evaluator counts a joined sample as complete iff it was observed ready and verified with all client timings and the backend was complete |
| `TimingProperties.JoinIgnoresOrder` | e2e/helpers/ingestion-latency.ts:617-724 | without a mixing complaint, samples and complaints are the same for every order of the events |
| `TimingProperties.OnlyFallbacksDependOnOrder` | e2e/helpers/ingestion-latency.ts:662-684 | given the run-wide metadata, a sample does not depend on the order at all |
| `TimingProperties.SamplesIgnoreOrderIff` | e2e/helpers/ingestion-latency.ts:635-677 | the samples survive every reordering iff no observed document falls back on metadata of a kind the run mixes |
| `TimingProperties.CleanJoinIsReported` | scripts/evaluate_ingestion_latency.py:232-248 | a join without complaint is accepted by the report, local expectation included, and changes no status |
| `TimingProperties.HostsAgree` | e2e/helpers/ingestion-latency.ts:675-675 | in an unmixed run a sample's host class is the run's |
| `IdleWait.WaitForTerminalJob` | scripts/evaluate_memory.py:381-418 | the poll loop ends, whenever the job stops changing and the interval passes between polls, with what the first deciding poll decides |
| `IdleWait.VerdictIff` | scripts/evaluate_memory.py:400-418 | a poll decides gone iff the job is gone, returned iff it is over in one of four states, idle iff since some poll all polls found the same and the clock moved on by more than the timeout |
| `IdleWait.Round` | scripts/evaluate_memory.py:400-418 | one round returns the poll's verdict from two remembered values, or remembers on |
| `IdleWait.IdleOnlyAfterStandstill` | scripts/evaluate_memory.py:409-417 | the idle error means a live job with the same state, timestamp and unit rows in every poll of a period longer than the timeout |
| `IdleWait.MovingJobNeverTrips` | scripts/evaluate_memory.py:409-417 | on any trace, a job whose observed changes follow each other within the timeout never trips the bound |
| `IdleWait.UnitOrderIsIrrelevant` | scripts/evaluate_memory.py:406-408 | the order in which unit rows are listed never changes the outcome |
| `IdleWait.SameSnapshotIff` | scripts/evaluate_memory.py:407-409 | two polls show the same progress iff job and multiset of unit rows agree |
| `IdleWait.WaitIsBounded` | scripts/evaluate_memory.py:396-418 | an undecided wait has made at most (changes seen) * (timeout / interval, rounded down, plus one) polls |
| `IdleWait.RoundUsesUp` | scripts/evaluate_memory.py:409-418 | each round uses up a change still to come or some idle budget |
| `Redaction.PublicPayloadSafeIff` | src/cowork_agent/api/evaluation_jobs.py:216-256 | no string value in the payload is an absolute path, and private keys hold only markers, iff redaction reaches what open enumeration members stand for |
| `Redaction.PlainMembersAreSafe` | src/cowork_agent/api/evaluation_jobs.py:216-256 | so always when such members stand for plain JSON values |
| `Redaction.PublicPayloadIdempotentIff` | src/cowork_agent/api/evaluation_jobs.py:216-244 | a second pass changes nothing iff open enumeration members stand for plain JSON values |
| `Redaction.OpenNodesAreKept` | src/cowork_agent/api/evaluation_jobs.py:232-244 | along every path that enters no private key the payload keeps container, keys, length and leaf, paths becoming the marker |
| `Redaction.PrivateNodesAreMarkers` | src/cowork_agent/api/evaluation_jobs.py:235-239 | a private key's value is the marker and nothing beneath it is reachable |
| `Redaction.CompositeMemberIsKept` | src/cowork_agent/api/evaluation_jobs.py:225-226 | a member standing for a tuple passes through unredacted |
| `Redaction.RedactIdempotent` | src/cowork_agent/api/evaluation_jobs.py:232-244 | the redaction step alone is idempotent on every value |
| `PrivateKeys.PrivateKeyIff` | src/cowork_agent/api/evaluation_jobs.py:259-265 | the normalizing pipeline finds exactly the keys in which a marker stands as a whole word or whose alphanumeric characters contain a compact marker |
| `PrivateKeys.WordOccursIff` | src/cowork_agent/api/evaluation_jobs.py:260-261 | the parts of a key are its whole-word occurrences |
| `RouteConfusion.ConfusionMatrix` | scripts/evaluate_routing.py:239-246 | the counting loop yields a square matrix whose every cell is the number of cases with that label and prediction |
| `RouteConfusion.PrecisionRecall` | scripts/evaluate_routing.py:249-261 | per route, diagonal over column and over row, absent on zero totals |
| `RouteConfusion.RatesOfCases` | scripts/evaluate_routing.py:249-261 | precision and recall times the cases predicted, or labelled, is the number of cases with both |
| `RouteConfusion.MissedAre` | scripts/evaluate_routing.py:264-275 | the missed retrievals by id and in order, their number, and their share of the retrieval cases |
| `RouteConfusion.RowsAndColumns` | scripts/evaluate_routing.py:255-257 | row and column totals count the cases with that label, or prediction, and a known counterpart |
| `RouteConfusion.MatrixTotalPlusUnknown` | scripts/evaluate_routing.py:239-246 | matrix total plus cases with an unknown route is the number of results |
| `RouteConfusion.MissedAccounting` | scripts/evaluate_routing.py:264-275 | missed retrievals are the row off its diagonal plus retrieval cases outside the vocabulary, listed in order |
| `RouteConfusion.MissRateVersusRecall` | scripts/evaluate_routing.py:249-275 | the miss rate is at least 1 - recall, with equality iff no retrieval case left the vocabulary or none was correct |
| `RouteConfusion.EmptyRowIsAllMissed` | scripts/evaluate_routing.py:249-275 | an empty row with retrieval labels has no recall and a miss rate of one |
| `RouteConfusion.Evaluate` | scripts/evaluate_routing.py:192-226 | one result per case in order: its labels beside the last decision about it, or the two words for none |
| `RouteConfusion.LastDecisionStands` | scripts/evaluate_routing.py:199-201 | of several decisions for one message the last one is kept |
| `RouteConfusion.OnlyMissingDecisionsFallOutside` | scripts/evaluate_routing.py:201-211 | with known labels and routes the matrix misses exactly the cases without a decision |
| `IngestionReport.PercentileIsNearestRank` | scripts/evaluate_ingestion_latency.py:204-207 | with the product p * n / 100 taken exactly, the p-th percentile is the one value with at least that many values, rounded up, at most it and fewer below it |
| `IngestionReport.SummaryIsOrdered` | scripts/evaluate_ingestion_latency.py:210-220 | min <= p50 <= p95 <= max, the bounds are attained and enclose every value, the empty list has none |
| `IngestionReport.PercentileMonotone` | scripts/evaluate_retrieval.py:563-565 | a higher percentile is never a smaller value, for any integer percentages |
| `IngestionReport.ProductTolerance` | scripts/evaluate_ingestion_latency.py:206-206 | a product within 1/100 that does not exceed an exact integer gives the same rank |
| `IngestionReport.ReportedPercentilesInDoubles` | scripts/evaluate_ingestion_latency.py:217-218 | for 50 and 95, the percentiles the reports use, double arithmetic meets that tolerance and gives the exact rank, for up to 10^9 values |
| `IngestionReport.ReportCountsAddUp` | scripts/evaluate_ingestion_latency.py:250-256 | complete, incomplete and failed samples partition the samples |
| `ReportFields.ReportIs` | scripts/evaluate_ingestion_latency.py:232-283 | every field of the report from positions in the samples: counts, host classes, status counts, each metric's count, bounds and nearest-rank percentiles, and each published sample |
| `ReportFields.ComputedIs` | scripts/evaluate_ingestion_latency.py:232-248 | the report, or which refusal comes and which fixtures it names, in order |
| `IngestionReport.ReportExistsIff` | scripts/evaluate_ingestion_latency.py:232-248 | a report is refused iff both host classes occur, or a local one is expected and a remote sample occurs |
| `IngestionReport.ReportIgnoresOrder` | scripts/evaluate_ingestion_latency.py:232-283 | reordering the samples reorders the report's per-sample list and changes nothing else in it |
| `Ordering.StringLeIff` | scripts/evaluate_retrieval.py:320-322 | the order of the sorted ids is code-point order: a prefix first, else the first difference decides |
| `Ordering.SortEqualIffPermutation` | scripts/evaluate_memory.py:407-407 | two lists sort to the same one iff they are permutations of each other |

## Left out

- Rounding to four digits and floating-point accumulation in means; in doubles some percentiles other than 50 and 95 round up across an integer (7 of 100 values gives rank 8).
- Retrieval evaluator: the checks for unknown level, score-kind and gate names and for booleans posing as numbers, `score_evidence`, `abstention_stats`, `miss_report`, the `by_document` slices, `calibration_sweeps` (one sweep per observed kind), and everything that runs retrieval.
- Memory evaluation: printing, the clean-up after failures, cancellation of tasks, the final report builder, and the seeded-session set during the first pass.
- RecoveryPass.Session.RunRecoveryPass: the lock around the transcript is not modelled, because the second pass has a single task.
- RecoveryPass.Session.ExecuteSingleArm: neither is it here, for the same reason; the first pass models it step by step.
- IngestionReport.PercentileIsNearestRank: rounding of the product is left to ReportedPercentilesInDoubles, which covers the percentiles in use.
- Prompting: the regular-expression engine; the pattern is a recognizer proved equal to its parts. `wrap_json_block` only adds `json.dumps`.
- Stream events: instances of a wrong class passed where evidence, a trace or an activity is declared, not-a-number and infinite floats, and members of plain enumerations that stand for something other than JSON.
- TaskProposals.ProposalSurvivesWire: keys shaped like raw e-mail are not searched for separately, because the exact key sets already exclude them.
- Timing join: reading and parsing the log file; `parse_samples` and its field checks.
- TimingJoin.IndexEvents: maps are values that the loop reassigns, so that one inner map is shared with the outer one and mutated through it is not captured.
- Idle wait: the repository, the event loop, and the text of the error.
- Redaction: keys that are not strings and could collide once `str` is applied; whether a key itself looks like a path, because keys are never redacted.
- Routing: `actionability_agreement`, one count and one ratio; batch counts and report building; resolvers and classifiers.
- Latency report: timestamps, the sorted presentation of status counts and host classes, and the schema version.
- FastAPI routes, OAuth, storage, configuration, Markdown reports, the React UI and the browser page objects.
