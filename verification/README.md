# Livestream datasets, review ledger and frozen splits

A Dafny model of the stateful and arithmetic core of the repository, with proofs about every input,
every run of calls and every interleaving.

**The livestream dataset pipeline** (`evaluations/livestream/`). Chat comments are fetched page by page
(`CommentPages`), sorted, prefiltered and rate-capped (`RateCap`, `Prefilter`, `VodCapture`), cleaned with the
help of an untrusted language model (`Semantic`, `Cleaning`, `CleaningPromise`, `CleaningRun`), thinned or compressed to a heat
tier (`MediumWorkload`, `MediumInterval`, `HighWorkload`), enriched with marked synthetic events
(`SyntheticTypes`, `Enrichment`), sanitized and written (`Sanitizer`, `Dataset`, `DatasetFile`), and published
as a family of two or four datasets (`Pipeline`), whose markers `Provenance` checks. The end-to-end results
say that what the producers write is what the validator recomputes.

**The review ledger and the frozen split** (`scripts/train/`). `LogText` and `JsonLines` model how a record
becomes a line and how a file becomes lines again, `EventText` that a line determines its event, `Ledger` the
hash chain, `Review` one `record_decision` call as a step of a state machine, `ReviewStores` the store object
and its status, `ReviewQueue` the frozen queue, `ReviewApply` the write-back behind the readiness gate,
`FreezeSplit` the split and its validators, `ReviewToSplit` when what the review wrote is what the split
demands.

**Two smaller members**: the Socket.IO delivery state machine (`Socket`, and `SocketHistory`, which reads its
state off the interleaving) and the ranking metrics (`Metrics`). `Wrappers`, `Rounding`, `Sorting`, `Distinct` and `Events` are shared.

Conventions. Offsets are integer milliseconds (reals where the code has seconds), ratios and factors are
exact fractions, Python's `round` is written out as round-half-even, its `sorted` as a stable insertion
sort. Code that updates state is a method or a class proved against a function; the laws are lemmas about
that function. For every main operation one predicate, named `Right...`, says what the operation promises on the
fields themselves, without the functions that compute it, and the operation ensures it. Text predicates, hashes, the model's replies and audio processing are function parameters.

`dafny verify dfyconfig.toml` checks the whole project.

## What the proofs found

Places where the code does less than its documentation or name suggests. The model follows the code; each
has the exact condition as a theorem, and most a concrete input.

- A capture of "one continuous chat window" misses comments when one whole second holds more of them than a page:
  refinement stops at whole seconds (`CommentPages.CaptureIsWindowExactly`, `CommentPages.BusySecondLosesOne`).
- A decision whose reviewer, transcript or notes holds U+0085, U+2028 or U+2029 (after stripping) is
  answered with success but leaves a log that no later call can read: canonical JSON leaves the three
  characters as they are and `splitlines` cuts the line there (`Review.ReadableExactly`,
  `Review.RunReadableExactly`, `Review.BreakingDecision`).
- The same happens to `events.jsonl` of a dataset, which the validator then rejects, and to the decision
  cache, which can then not be opened again (`DatasetFile.WrittenFileExactly`, `DatasetFile.BreakingMessage`,
  `CacheFile.CacheReopensExactly`).
- Sanitizing twice is not always idempotent on actors: an exempt event of a non-replyable type loses its
  origin in the first pass (`Sanitizer.SecondPassKeepsActors`, `Sanitizer.EnteringLosesActor`).
  `BROADCAST_STATE` has no payload whitelist entry and raises a key error.
- The validator rounds the qualified share to six digits and so accepts slightly more than the producers
  (`Workload.RoundedGate`, `Workload.GatesDiffer`).
- Neither the queue nor the apply step looks at a clip's digest, so an accepted clip with a blank or malformed digest
  is refused only when the split is frozen; so is one whose source id or own id is blank. A blank audio path cannot
  get that far, as the queue refuses it (`ReviewToSplit.AppliedClipsValidExactly`,
  `ReviewToSplit.BlankDigestIsRefused`).
- An apply is not all or nothing: the receipt is written last and unguarded. When that write fails the manifests stay
  changed, no receipt exists, and every later apply of the run is refused (`ReviewApply.AllOrNothingExactly`,
  `ReviewApply.LostReceiptIsStuck`, `ReviewToSplit.ReceiptIsLost`).
- The parser of the model's replies takes an intent of one blank, the validator does not; and synthetic actors past
  `synthetic_9999` are neither kept by the sanitizer nor accepted by the validator, so a source with more than 99 990
  kept messages cannot be published at the fixed ratio (`Provenance.CleanedPresentable`,
  `Provenance.EnrichedAccepted`, `Provenance.BlankIntentIsRefused`, `Provenance.LongStreamIsRefused`).
- The promise of at most 60 messages in any 59-second interval of a medium stream can fail in the last fraction
  of a second. It holds exactly when a checked window covers the interval, the interval lies in one calendar
  minute, or the target rate is at most 30 (`MediumInterval.CappedExactly`, `MediumInterval.TailSecondEscapes`).
- nDCG can exceed 1 when retrieved chunks repeat. It does so at every decreasing discount, the code's included,
  exactly when the ranks an ideal ranking fills are all hits and further hits follow; it never does, at any of them,
  exactly when the hits do not outnumber the expected chunks (`Metrics.NdcgExceedsExactly`,
  `Metrics.NdcgBoundedExactly`, `Metrics.RepeatedHitExceeds`).
- A failed emit in the Socket.IO processor leaves its registration behind until the processor is closed, and
  nothing else does (`Socket.LeftBehindExactly`, `Socket.FailedEmitLeavesTask`).
- A compression step that rounds to zero hundredths makes the factor range raise (`HighWorkload.StepNotNegative`).
- A log entry's hash is compared through `str`, so a hash stored as a number could pass; equality of logs
  is therefore stated up to that (`Ledger.HeadFixesLog`) and outright for string hashes
  (`Ledger.HeadFixesStringLog`).

## Model

| member | source | states |
|---|---|---|
| RateCap.GreedySafeAndOptimal | evaluations/livestream/twitch_vod.py:223-239 | on offset-sorted records the kept records put at most `cap` in every half-open 60-second window, and no subsequence obeying that cap is longer |
| RateCap.GreedyStaysAhead | evaluations/livestream/twitch_vod.py:223-239 | against any cap-obeying subsequence, greedy has chosen at least as many records among the first n, its j-th never later |
| RateCap.WindowSafeIffSpaced | evaluations/livestream/twitch_vod.py:223-239 | on sorted records, at most `cap` per window is the same as any two chosen records `cap` apart being 60 s apart |
| RateCap.DequeStep | evaluations/livestream/twitch_vod.py:228-238 | one loop iteration refines one greedy step: the deque holds exactly the chosen offsets of the last 60 s |
| RateCap.ShapeRate | evaluations/livestream/twitch_vod.py:223-239 | without a cap everything is kept; on sorted records the deque loop returns a choice whose records keep 60 s between any two `cap` places apart, and no other such choice is longer or takes its j-th record earlier |
| RateCap.ShapeUnique | evaluations/livestream/twitch_vod.py:223-239 | two choices with those properties are the same records |
| Prefilter.KeptDuplicatesAreFarApart | evaluations/livestream/twitch_vod.py:265-272 | any two kept records of one actor with one normalized text are more than 30 s apart, adjacent or not |
| Prefilter.CopypastaKeptOnce | evaluations/livestream/twitch_vod.py:241-273 | of a long text repeated at least three times with any clean record, exactly one record stays |
| Prefilter.FirstCleanIsKept | evaluations/livestream/twitch_vod.py:256-273 | the first record of its text that survives the deterministic rules is kept |
| Prefilter.DroppedHasKeptWitness | evaluations/livestream/twitch_vod.py:256-273 | a clean record is dropped only with an earlier kept record of its text: copypasta, or same actor within 30 s |
| Prefilter.CountLongTexts | evaluations/livestream/twitch_vod.py:248-252 | the counter holds the repeat count of every long normalized text and nothing else |
| Prefilter.PrefilterRecords | evaluations/livestream/twitch_vod.py:241-273 | switched off, every record with its position; switched on, over sorted records, increasing positions each with its own record, holding record i exactly when no rule drops it and no earlier record in the result is pasted like it or by its actor within 30 s, and nothing else |
| Prefilter.SurvivorsWellFiltered | evaluations/livestream/twitch_vod.py:241-273 | so do the survivors of the declarative rules |
| Prefilter.WellFilteredUnique | evaluations/livestream/twitch_vod.py:241-273 | and no other sequence does, so the properties name the result |
| VodCapture.CaptureOrderIsPreorder | evaluations/livestream/twitch_vod.py:178 | the sort key (offset, actor, text) is a total preorder, so the stable sort is well defined |
| VodCapture.StoredTimeline | evaluations/livestream/twitch_vod.py:181-195 | whatever offset-sorted selection is stored, rounding offsets to milliseconds gives sequence = index and non-decreasing non-negative offsets |
| VodCapture.Capture | evaluations/livestream/twitch_vod.py:178-195 | sort, prefilter, cap and renumber compose: the comments sorted, filtered and shaped as stated for the three steps, each stored with its own text and author at the nearest whole millisecond, in a valid timeline |
| CommentPages.CaptureIsWindowExactly | evaluations/livestream/twitch_vod.py:145-178 | what the capture sorts is the whole window of the chat exactly when no whole second of it holds more comments than one page, whatever the step between pages |
| CommentPages.CompleteExactly | evaluations/livestream/twitch_vod.py:145-176 | no comment of the window is missed exactly under that condition |
| CommentPages.BusySecondLosesOne | evaluations/livestream/twitch_vod.py:287-297 | sixty comments in one second, served in pages of 59: one is lost at every step width |
| CommentPages.SameCommentsSameCapture | evaluations/livestream/twitch_vod.py:168-178 | two fetches that saw the same comments sort to the same capture, however pages overlap, repeat or are ordered |
| CommentPages.NothingFetchedTwice | evaluations/livestream/twitch_vod.py:148-166 | no offset is requested twice: the extra offsets increase and none is an initial one |
| CommentPages.FetchOffsets | evaluations/livestream/twitch_vod.py:275-285 | the pages come in offset order whatever the order in which the requests complete |
| CommentPages.Collect | evaluations/livestream/twitch_vod.py:168-176 | the dictionary loop keeps one record per comment id, the last one seen, in order of first appearance |
| CommentPages.CollectedIsRight | evaluations/livestream/twitch_vod.py:168-176 | so do the collected comments of the specification: exactly the ids that appear, at the place of their first appearance, with the record of their last |
| CommentPages.CaptureVod | evaluations/livestream/twitch_vod.py:145-221 | the whole capture: both rounds of requests, the comments they gave sorted, filtered, shaped and stored as stated for the steps, and a note that is there exactly when something was shaped and holds the counts of the stages that ran |
| Workload.RollingRatesAgree | evaluations/livestream/enrichment.py:50-66 | the producer's rolling rates are the validator's, for every stream and duration |
| Workload.WindowBelowMax | evaluations/livestream/enrichment.py:164-170 | no second-stepped window exceeds the largest producer rate |
| Workload.QualifiedPassesValidator | evaluations/livestream/dataset.py:525-557 | a stream that passes the producer's exact heat gate passes the validator's rounded one |
| Workload.RoundedGate | evaluations/livestream/dataset.py:825-856 | the share rounded to six digits reaches 0.8 exactly when 2000000 * matching >= 1599999 * windows |
| Workload.GatesDiffer | evaluations/livestream/dataset.py:825-856 | a concrete stream, 320013 messages over 400063 seconds, that the validator accepts as medium and the producer's exact gate refuses |
| Workload.ComputeWorkload | evaluations/livestream/dataset.py:825-856 | the loop over window starts fills the report: the rate of every window is the number of messages in it, every matching share, percentile, least and greatest is that of those rates |
| Workload.WorkloadIsRight | evaluations/livestream/dataset.py:825-871 | the specified report has those figures, each stated over the rates without the functions that compute it |
| Workload.ProducerRatesAreRight | evaluations/livestream/enrichment.py:50-66 | and the producer rates are the message counts of the same windows |
| Workload.PercentileBetween | evaluations/livestream/dataset.py:873-884 | an interpolated percentile stays between the smallest and the largest value |
| SyntheticTypes.PositionsDistinct | evaluations/livestream/enrichment.py:271-283 | for 1 <= m <= total the positions floor((i + 0.5) * total / m) are strictly increasing and in range, so the repair loop never runs |
| SyntheticTypes.PositionUnclamped | evaluations/livestream/enrichment.py:279-280 | the clamp to total - 1 is never active |
| SyntheticTypes.EventTypeCounts | evaluations/livestream/enrichment.py:271-301 | for every seed the result holds exactly the asked gifts and super chats, the rest danmaku |
| SyntheticTypes.FillQuota | evaluations/livestream/enrichment.py:286-301 | the quota loop turns the positions, in order, into the alternating gift and super-chat sequence |
| SyntheticTypes.SyntheticEventTypes | evaluations/livestream/enrichment.py:271-301 | the position set, the repair loop and the quota loop compute the specified type list |
| SyntheticTypes.TypesAreRight | evaluations/livestream/enrichment.py:271-301 | exactly the middles of equal stretches hold gifts and super chats, every third ordinal shifted by the seed a super chat while there are any left; everything else is danmaku |
| Enrichment.QuotasFit | evaluations/livestream/enrichment.py:191-203 | the caller's monetary total lies between 1 and the synthetic total and its gifts never exceed it |
| Enrichment.Erasable | evaluations/livestream/enrichment.py:173-268 | deleting what is marked synthetic from the output gives back the input in order, up to renumbering |
| Enrichment.EnrichedTimeline | evaluations/livestream/enrichment.py:245-268 | output sequences are 0..n-1 and offsets never decrease |
| Enrichment.ParentsAreRelinked | evaluations/livestream/enrichment.py:249-259 | every synthetic event's `parent_sequence` is the output index of its own real parent, strictly before it and one millisecond earlier |
| Enrichment.EnrichSucceeds | evaluations/livestream/enrichment.py:180-189 | on real input, enrichment succeeds exactly with a positive ratio, something replyable and no synthetic-looking actor; the parent lookup then never fails |
| Enrichment.EnrichedCounts | evaluations/livestream/enrichment.py:191-243 | the output has every input event plus exactly ceil(replyable * ratio) synthetic ones |
| Enrichment.CreateSynthetic | evaluations/livestream/enrichment.py:205-243 | the creation loop with its running danmaku index builds the specified synthetic events |
| Enrichment.Relink | evaluations/livestream/enrichment.py:249-268 | the sequence dictionary and the renumbering loop: relinked when every parent is known, a key error otherwise |
| Enrichment.EnrichScenarios | evaluations/livestream/enrichment.py:173-268 | the whole transform computes the specified outcome, and on input without marked events each refusal comes exactly when its condition holds; otherwise the input and the created events in time order, numbered, where the i-th created event follows the message in the middle of its stretch by a millisecond, carries the scenario of its type and points at that message |
| Enrichment.EnrichmentIsRight | evaluations/livestream/enrichment.py:173-268 | the specified outcome has those properties on every real input |
| MediumWorkload.SelectMinute | evaluations/livestream/enrichment.py:304-339 | the slot loop over its two counters makes the choices the rank specifies |
| MediumWorkload.BestIsLeast | evaluations/livestream/enrichment.py:317-334 | the chosen event has the least rank, and the first one among equal ranks |
| MediumWorkload.SlotsPartition | evaluations/livestream/enrichment.py:304-339 | selecting never invents, loses or repeats a candidate |
| MediumWorkload.MinuteQuota | evaluations/livestream/enrichment.py:115-163 | every calendar minute of the duration keeps exactly min(count, target rate) replyable events and no other minute keeps any |
| MediumWorkload.MediumIsSubsequence | evaluations/livestream/enrichment.py:115-163 | the medium stream is an order-preserving duplicate-free part of the input |
| MediumWorkload.MediumTimeline | evaluations/livestream/enrichment.py:149-163 | numbered 0..n-1 in time order, and real when the input is |
| MediumInterval.AnyIntervalCapped | evaluations/livestream/enrichment.py:164-170 | on success any 59-second interval that a checked window covers, or that lies in one calendar minute, or at a target rate that leaves room for two minutes, holds at most 60 real replyable events |
| MediumInterval.CappedExactly | evaluations/livestream/enrichment.py:164-170 | for a given duration, rate and interval, every accepted stream is capped exactly under that condition |
| MediumInterval.CrowdEscapes | evaluations/livestream/enrichment.py:115-170 | wherever the condition fails, a stream that thinning accepts unchanged puts 61 events in the interval |
| MediumInterval.TailSecondEscapes | evaluations/livestream/enrichment.py:115-170 | concretely: over 60999 ms at the default rate, an accepted stream holds 61 in the interval from 1999 ms |
| MediumWorkload.MediumPassesValidator | evaluations/livestream/enrichment.py:164-170 | whatever thinning returns passes the validator's medium heat check |
| MediumWorkload.GroupByMinute | evaluations/livestream/enrichment.py:132-134 | the dictionary holds each minute's replyable events in order |
| MediumWorkload.SelectMinutes | evaluations/livestream/enrichment.py:136-147 | the loop over the minutes concatenates the per-minute selections |
| MediumWorkload.DeriveMediumEvents | evaluations/livestream/enrichment.py:115-170 | grouping, selection, sorting, renumbering and the checks: in every minute with more messages than the target each slot takes the remaining message nearest to it by whole slots, then of a rarer actor, of a rarer intent, nearer, of a lower digest; the refusals hold exactly under their conditions |
| MediumWorkload.MediumIsRight | evaluations/livestream/enrichment.py:115-170 | the specified outcome has those properties, stated over the events |
| HighWorkload.LeastQualifyingFactor | evaluations/livestream/enrichment.py:69-112 | the factor is the least qualifying one of the grid 1.00, 1.00 + step, ... up to the maximum |
| HighWorkload.DurationKept | evaluations/livestream/enrichment.py:69-112 | the compressed duration is never below the minimum nor above the original |
| HighWorkload.OrderPreserved | evaluations/livestream/enrichment.py:94-107 | event order, identity and number survive; a factor of 1 changes only the numbering |
| HighWorkload.StepNotNegative | evaluations/livestream/enrichment.py:88-94 | a positive step rounds to at least zero hundredths, and to zero exactly for steps up to 0.005, the one case the range rejects |
| HighWorkload.HighPassesValidator | evaluations/livestream/enrichment.py:69-112 | whatever compression returns passes the validator's high heat check |
| HighWorkload.DeriveHighEvents | evaluations/livestream/enrichment.py:69-112 | on success every offset and the duration are the nearest integers, ties to even, to 100 times the original over the factor; it succeeds exactly when some factor of the grid gives a qualifying stream, and then with the first such factor |
| HighWorkload.HighIsRight | evaluations/livestream/enrichment.py:69-112 | the specified outcome has those properties, stated without the functions that divide and search |
| HighWorkload.SearchFactor | evaluations/livestream/enrichment.py:94-109 | the search loop stops at the first qualifying factor |
| Sanitizer.EventSanitizer.constructor | evaluations/livestream/dataset.py:123-124 | a fresh sanitizer has seen nothing |
| Sanitizer.EventSanitizer.Alias | evaluations/livestream/dataset.py:158-163 | the alias of a key is its position in first-appearance order plus one, and the dictionary stays a bijection onto 1..n |
| Sanitizer.EventSanitizer.AliasFor | evaluations/livestream/dataset.py:126-163 | marked synthetic actors keep their id, keyless events get none, all others their alias |
| Sanitizer.EventSanitizer.Sanitize | evaluations/livestream/dataset.py:126-150 | the stored event, or the missing-whitelist error after the alias was assigned |
| Sanitizer.StoredIsRight | evaluations/livestream/dataset.py:126-178 | every stored event keeps number, offset and type; a message keeps its provenance with scrubbed texts, anything else has none, of the other keys exactly the allowed ones stay; an actor's number is one more than the keys used before its own |
| Sanitizer.BijectiveStep | evaluations/livestream/dataset.py:158-163 | adding an unseen key keeps the alias map a bijection onto an initial segment |
| Sanitizer.SeenIsDistinct | evaluations/livestream/dataset.py:126-163 | the keys with an alias are exactly the keys that appeared, each once |
| Sanitizer.SameAliasIffSameKey | evaluations/livestream/dataset.py:152-163 | two stored events share an actor exactly when they share a key |
| Sanitizer.SecondPassKeepsActors | evaluations/livestream/dataset.py:126-163 | a fresh sanitizer over its own output leaves every actor id unchanged exactly when every event that kept a synthetic actor is replyable |
| Sanitizer.EnteringLosesActor | evaluations/livestream/dataset.py:126-163 | concretely: a synthetic viewer entering becomes a numbered viewer in the second pass |
| Sanitizer.SecondPassOrder | evaluations/livestream/dataset.py:126-163 | a second pass meets the stored viewers in the order of their numbers |
| Sanitizer.SanitizingKeepsWorkload | evaluations/livestream/dataset.py:126-178 | sanitizing changes neither the timeline nor the real and synthetic replyable events |
| Dataset.DatasetWriter.constructor | evaluations/livestream/dataset.py:187-238 | an accepted configuration opens an empty dataset |
| Dataset.DatasetWriter.Write | evaluations/livestream/dataset.py:240-254 | appends the sanitized event, or refuses when closed or unsupported; the running counts and the alias table equal the recount over the file |
| Dataset.DatasetWriter.Abort | evaluations/livestream/dataset.py:256-261 | closes the writer and keeps the file |
| Dataset.DatasetWriter.Finalize | evaluations/livestream/dataset.py:263-331 | refuses a closed writer or a non-positive duration, else writes the manifest that the stored file determines |
| Dataset.WriteDataset | evaluations/livestream/pipeline.py:254-291 | one writer over all events: each error exactly when its condition holds; otherwise the sanitized events, and a manifest whose counts, rates, checksum and reconciliation figures are those of the stored events |
| Dataset.WriteIsRight | evaluations/livestream/dataset.py:240-331 | the specified outcome has those properties, stated on the stored events |
| Dataset.ManifestIsForced | evaluations/livestream/dataset.py:503-557 | beside a manifest that passes the recomputation and reconciliation checks, another over the same events and parent passes exactly when all its counts, rates and reconciled figures are the same; only the translated count is free where a v1 parent does not record it |
| Dataset.ShareIsForced | evaluations/livestream/dataset.py:653-715 | the share check passes exactly with the synthetic messages the ratio asks for, rounded up, or none in a clean-real dataset |
| Dataset.TimelineAccepted | evaluations/livestream/dataset.py:460-476 | the scan with its early return accepts exactly the streams with sequence = index and non-negative non-decreasing offsets |
| Dataset.WrittenPassesRecomputation | evaluations/livestream/dataset.py:460-557 | a written timeline is still a timeline after sanitizing, and the validator's four recomputation checks accept it |
| Dataset.WrittenCounts | evaluations/livestream/dataset.py:263-331 | the manifest counts equal the real and synthetic replyable events of what was written |
| Dataset.WrittenRealOrigin | evaluations/livestream/dataset.py:744-745 | events stored with origin `real` are the real replyable events written, when every origin is known |
| Dataset.EventCountsStep | evaluations/livestream/dataset.py:240-254 | one more event bumps one entry of the counter, so the accumulator equals the recount |
| Dataset.CountedByType | evaluations/livestream/dataset.py:810-815 | the three replyable manifest entries add up to the replyable events |
| Semantic.AlwaysPartitioned | evaluations/livestream/semantic.py:90-157 | for every possible run of replies, resolved and pending stay a disjoint partition of the requested sequences, within the call limit |
| Semantic.AttemptPartitions | evaluations/livestream/semantic.py:200-268 | one attempt, whatever the reply, keeps that partition |
| Semantic.FinalNonChineseIsFresh | evaluations/livestream/semantic.py:102-121 | the sequences remembered for a forced drop are those the last fully parsed attempt still left non-Chinese |
| Semantic.BatchResult | evaluations/livestream/semantic.py:90-157 | success means one decision per request, in order, with Chinese kept texts; a forced drop only where the third attempt parsed and stayed non-Chinese |
| Semantic.ProcessBatch | evaluations/livestream/semantic.py:81-157 | for any replies: calls until the client raises or a reply decides every open request, at most three; a reply that does not parse leaves the open requests as they were, one that parses leaves those it decided badly; it returns exactly when a reply decided everything, or the policy is to drop and the third reply parses, and then each request's decision is the one of the reply that settled it |
| Semantic.BatchConcludes | evaluations/livestream/semantic.py:90-157 | the same of the batch state the retry loop specifies, stated over the replies alone |
| Semantic.TrailExists | evaluations/livestream/semantic.py:96-135 | for any replies there is such a sequence of open requests |
| Semantic.FollowsUnread | evaluations/livestream/semantic.py:102-121 | a reply that does not parse leaves the open requests and the settled decisions as they were and the batch running |
| Semantic.OneAttempt | evaluations/livestream/semantic.py:96-121 | the body of the retry loop computes the specified next state, which `BatchConcludes` and `FollowsUnread` fix over the replies: it ends the batch only when the client raised or everything is decided |
| Semantic.ParseReply | evaluations/livestream/semantic.py:197-268 | the element loop of the parser accepts exactly the specified replies |
| Semantic.ParseExactly | evaluations/livestream/semantic.py:197-268 | a reply parses exactly when its `decisions` list decides each open request once, with fields of the right kinds, and the decisions hold what the fields say |
| Semantic.Deliver | evaluations/livestream/semantic.py:143-157 | the end of the batch: the decisions in request order, the forced drops, or the error |
| Cleaning.Conservation | evaluations/livestream/cleaning.py:232-338 | every source event ends up exactly once in the kept stream or in the drop list |
| Cleaning.CleanedOrder | evaluations/livestream/cleaning.py:322-338 | the kept stream is numbered 0..n-1 in (offset, source sequence) order, no source sequence repeats, every event is marked real |
| Cleaning.ReplyableConserved | evaluations/livestream/cleaning.py:249-320 | retained plus dropped replyable events are all replyable events, and translated never exceeds retained |
| Cleaning.CleanedCounts | evaluations/livestream/cleaning.py:249-338 | replyable kept plus dropped equals replyable in, every other event is kept, translated <= retained |
| CleaningPromise.CleaningIsRight | evaluations/livestream/cleaning.py:249-338 | of every event the cleaned stream and the drop list say what the rules ask: a message passes exactly when no rule drops it and no earlier passing one repeats it; a passing Chinese message with an intent is kept as it is, any other has the fate of its decision; drops, order, numbers and the translated count follow |
| CleaningRun.FindDropReason | evaluations/livestream/cleaning.py:253-268 | the deterministic reason chain over its two dictionaries gives the specified reason |
| CleaningRun.DeterministicPass | evaluations/livestream/cleaning.py:249-285 | the first loop settles every event the rules or the cache decide and lists exactly the others as requests |
| CleaningRun.QuestionsAreRight | evaluations/livestream/cleaning.py:249-285 | the model is asked, in stream order, about exactly the passing messages that are not settled by the rules or the cache, each with its neighbours inside the context window |
| CleaningRun.ModelPass | evaluations/livestream/cleaning.py:287-306 | the batches are consecutive stretches of the requests; the pass fails exactly when some batch gets no answer, and otherwise the last answer on a sequence wins, over the cache |
| CleaningRun.SettlingPass | evaluations/livestream/cleaning.py:308-320 | the third loop adds exactly one outcome per asked sequence |
| CleaningRun.CollectedInAnyOrder | evaluations/livestream/cleaning.py:322-338 | sorting makes the result independent of the order in which batches completed |
| CleaningRun.Clean | evaluations/livestream/cleaning.py:232-338 | for any model, on offsets that never decrease: it fails on a batch size of zero, when a batch gets no answer, when the answers do not name exactly the asked messages, or when a kept text is blank; otherwise it returns the stream that the rules and the last decision on every asked message determine |
| CleaningRun.CleanedIsChinese | evaluations/livestream/cleaning.py:232-338 | with a processor that keeps its contract, every replyable message of the cleaned stream is Chinese or the localization of a Chinese text |
| CleaningRun.DecisionCache.constructor | evaluations/livestream/cleaning.py:137-142 | a cache replays its file |
| CleaningRun.DecisionCache.Put | evaluations/livestream/cleaning.py:148-165 | the first decision for a key wins, nothing else changes, and the file still replays to the entries |
| Pipeline.CleanRealReconciles | evaluations/livestream/dataset.py:717-793 | a clean-real dataset whose drop count is the difference to its parent passes the count and provenance reconciliation |
| Pipeline.CleanEnrichedReconciles | evaluations/livestream/dataset.py:653-793 | an enriched dataset reconciles with the clean-real dataset it came from |
| Pipeline.StagePair | evaluations/livestream/pipeline.py:115-152 | one clean-real and one enriched dataset with their manifests as configured, each error exactly when its step fails; both reconcile with their parents, with the exact conditions of their heat and provenance checks |
| Pipeline.CleanAndCompress | evaluations/livestream/pipeline.py:84-104 | cleaning and, for a high source only, compression give the prepared stream, its duration and the counts the writer is told, or the error of the step that failed; the stream is presentable exactly when the kept source messages are fit |
| Pipeline.BuildFamily | evaluations/livestream/pipeline.py:84-213 | for every valid v1 source and every model: the family is the one its steps determine, in order, under its four names, with the error of the first step that fails; each member passes every recomputation and parent/child check and the heat check of its tier; the clean-real one passes the provenance check exactly when the kept source messages are fit, the enriched one exactly when it does and at most 9999 events are synthetic |
| Pipeline.StageMedium | evaluations/livestream/pipeline.py:154-213 | the medium pair is thinned from the prepared stream, hangs below the clean-real dataset, records the thinned-out messages as dropped and passes the medium heat check |
| Provenance.CleanedPresentable | evaluations/livestream/cleaning.py:249-338 | the cleaned stream can pass the real-provenance check exactly when no kept message's source payload carries `scenario` or `parent_sequence`, no decision on one has a blank intent, and no new text starts with the synthetic prefix |
| Provenance.RealStreamAccepted | evaluations/livestream/dataset.py:653-698 | a stored real stream passes the marker and real-provenance checks exactly when each of its messages does, whatever aliases it gets |
| Provenance.CarefulExists | evaluations/livestream/dataset.py:165-178 | what these results ask of the text scrubber can be met |
| Provenance.EnrichedAccepted | evaluations/livestream/dataset.py:653-698 | an enriched stream passes exactly when its real messages do and it needs no synthetic actor past `synthetic_9999` |
| Provenance.BlankIntentIsRefused | evaluations/livestream/semantic.py:221-227 | concretely: the parser accepts a kept decision with one blank as intent, and the validator refuses the stream it leads to |
| Provenance.LongStreamIsRefused | evaluations/livestream/enrichment.py:205-243 | concretely: 99991 real messages are enriched without complaint and refused afterwards |
| Provenance.HighPresentable | evaluations/livestream/enrichment.py:69-112 | compression changes nothing the provenance check reads |
| Provenance.MediumPresentable | evaluations/livestream/enrichment.py:115-170 | thinning keeps a stream that passes passing |
| Pipeline.EnrichedRealOffsets | evaluations/livestream/enrichment.py:173-268 | enrichment leaves the offsets of the real replyable events unchanged |
| Pipeline.EnrichedHeat | evaluations/livestream/dataset.py:503-557 | an enriched dataset passes the heat check exactly when the dataset it was enriched from does |
| Pipeline.HeatCarriesOver | evaluations/livestream/dataset.py:503-557 | sanitizing on the way to disk does not change the heat check |
| Pipeline.Validate | evaluations/livestream/dataset.py:336-409 | on a family member the validator's verdict depends on its heat, its markers and the remaining content checks alone |
| Pipeline.Publish | evaluations/livestream/pipeline.py:48-250 | refuses an invalid source, then existing outputs, then whatever the build fails on, then a member whose content is rejected, then a failing rename, each exactly then; on any failure the visible datasets are unchanged, on success exactly the family is added under its names |
| Pipeline.MoveIntoPlace | evaluations/livestream/pipeline.py:234-250 | the rename loop with its rollback: all names or none |
| Socket.StepKeepsInv | evaluations/livestream/socket_processor.py:45-193 | every step of any interleaving keeps the invariant |
| Socket.RunKeepsInv | evaluations/livestream/socket_processor.py:45-193 | every reachable state satisfies it |
| Socket.CompletedBounded | evaluations/livestream/socket_processor.py:60-101 | completions never exceed any of the four delivery counts, and every open stream belongs to a pending task |
| Socket.ReplySetOnce | evaluations/livestream/socket_processor.py:172-193 | a task's outcome, once set, never changes in any continuation |
| Socket.ReplyWhenDelivered | evaluations/livestream/socket_processor.py:172-184 | a reply is set only when sentence, audio, live2d and control have all arrived |
| Socket.ReplyIsSentences | evaluations/livestream/socket_processor.py:103-110 | the reply is the concatenation, in order, of the sentences that had arrived when the fourth kind of delivery arrived |
| Socket.StreamTracksChunks | evaluations/livestream/socket_processor.py:118-139 | an open stream is valid exactly when its chunks since the start are 0..n-1 with data |
| Socket.CreditExactly | evaluations/livestream/socket_processor.py:141-154 | a stream end credits audio exactly when the stream is open for that pending task, completed, its chunks were 0..n-1 with n >= 1 and n - 1 is the final sequence |
| Socket.AudioOnlyWhenDue | evaluations/livestream/socket_processor.py:112-154 | a task enters the audio set only through an audio event or a credited stream end |
| Socket.LeftBehindExactly | evaluations/livestream/socket_processor.py:60-90 | over every possible run, a registration outlives its call exactly when the call's emit failed and no close came since |
| Socket.FailedEmitLeavesTask | evaluations/livestream/socket_processor.py:60-79 | connect, submit and a failing emit: the task stays registered |
| Socket.FullStackProcessor.constructor | evaluations/livestream/socket_processor.py:17-43 | a processor starts in the initial state |
| Socket.FullStackProcessor.OnConnect | evaluations/livestream/socket_processor.py:45-47 | connect; the object state refines the step |
| Socket.FullStackProcessor.OnClose | evaluations/livestream/socket_processor.py:49-58 | close: waiting tasks fail and every registration goes; the object state refines the step |
| Socket.FullStackProcessor.Begin | evaluations/livestream/socket_processor.py:60-65 | the first half of `process` registers a fresh waiting task, or refuses when disconnected; the object state refines the step |
| Socket.FullStackProcessor.EmitEnds | evaluations/livestream/socket_processor.py:66-79 | the emit of a registered task succeeds or raises; the registrations stay as they are; the object state refines the step |
| Socket.FullStackProcessor.Forget | evaluations/livestream/socket_processor.py:82-90 | the clean-up removes the registration and the task's open streams; the object state refines the step |
| Socket.FullStackProcessor.Finish | evaluations/livestream/socket_processor.py:80-92 | a finished task returns its reply, or its error, and counts as completed only with a reply; the object state refines the step |
| Socket.FullStackProcessor.GiveUp | evaluations/livestream/socket_processor.py:80-90 | a timeout cancels and forgets the task; the object state refines the step |
| Socket.FullStackProcessor.MaybeComplete | evaluations/livestream/socket_processor.py:172-184 | `_maybe_complete`; the object state refines the step |
| Socket.FullStackProcessor.OnSentence | evaluations/livestream/socket_processor.py:103-110 | sentences of pending tasks are appended; the object state refines the step |
| Socket.FullStackProcessor.OnAudio | evaluations/livestream/socket_processor.py:112-116 | whole audio counts for pending tasks only; the object state refines the step |
| Socket.FullStackProcessor.OnAudioStreamStart | evaluations/livestream/socket_processor.py:118-128 | a named stream of a pending task opens, replacing one of that id; the object state refines the step |
| Socket.FullStackProcessor.OnAudioStreamChunk | evaluations/livestream/socket_processor.py:130-139 | a wrong sequence or missing data invalidates the stream; the object state refines the step |
| Socket.FullStackProcessor.OnAudioStreamEnd | evaluations/livestream/socket_processor.py:141-154 | the stream goes, and credits audio when due; the object state refines the step |
| Socket.FullStackProcessor.OnLive2d | evaluations/livestream/socket_processor.py:156-160 | live2d delivery; the object state refines the step |
| Socket.FullStackProcessor.OnControl | evaluations/livestream/socket_processor.py:162-170 | only conversation-end counts, and it completes a task delivered in the other three kinds; the object state refines the step |
| Socket.FullStackProcessor.OnError | evaluations/livestream/socket_processor.py:186-193 | an error fails a waiting task; the object state refines the step |
| Socket.FullStackProcessor.Evidence | evaluations/livestream/socket_processor.py:94-101 | the reported counts, completions never above deliveries |
| SocketHistory.ConnectedExactly | evaluations/livestream/socket_processor.py:45-58 | connected exactly since a connect with no close after it |
| SocketHistory.PendingExactly | evaluations/livestream/socket_processor.py:60-90 | a task is registered exactly since its submission, until a close or the end of its own call |
| SocketHistory.SubmittedExactly | evaluations/livestream/socket_processor.py:60-65 | a task has an outcome, be it only that it waits, exactly once it was submitted |
| SocketHistory.DeliveredExactly | evaluations/livestream/socket_processor.py:103-170 | a task is in the set of a kind of delivery exactly once that kind was delivered to it while it was registered |
| SocketHistory.StreamsExactly | evaluations/livestream/socket_processor.py:118-154 | a stream is open for a task exactly since it was last started for it, until it ends, is replaced or the task goes |
| SocketHistory.NeverOverdue | evaluations/livestream/socket_processor.py:172-184 | over every possible interleaving no registered task is both waiting and delivered in all four kinds |
| SocketHistory.OutcomeExactly | evaluations/livestream/socket_processor.py:60-193 | so the step that brings the fourth kind, whichever it is, sets the reply to the sentences joined; a timeout cancels, a close or an error report fails, and nothing else changes a waiting task |
| SocketHistory.CompletedExactly | evaluations/livestream/socket_processor.py:80-92 | the completed count is the number of calls that returned a reply |
| Metrics.NdcgOfDistinctBounded | evaluations/rag/metrics.py:78-107 | for a duplicate-free ranking nDCG@k lies in [0, 1] for any positive decreasing discount, even when `expected` repeats chunks |
| Metrics.NdcgBoundedExactly | evaluations/rag/metrics.py:78-107 | without that assumption every decreasing discount gives at most 1 exactly when the counted hits do not exceed the expected chunks |
| Metrics.NdcgExceedsExactly | evaluations/rag/metrics.py:78-107 | every decreasing discount, so also the code's logarithmic one, gives more than 1 exactly when the ranks an ideal ranking fills are all hits and there are more hits than those |
| Metrics.RepeatedHitExceeds | evaluations/rag/metrics.py:78-107 | concretely: one expected chunk retrieved twice, at k = 2, for every decreasing discount |
| Metrics.DcgAtMostIdeal | evaluations/rag/metrics.py:93-106 | hits at any h distinct ranks weigh at most the first h discounts |
| Metrics.PerfectExactly | evaluations/rag/metrics.py:78-107 | with a strictly decreasing discount nDCG is 1 exactly when the first min(the number of expected chunks, k) chunks are all relevant |
| Metrics.RecallMonotone | evaluations/rag/metrics.py:36-46 | recall@k never falls as k grows |
| Metrics.ShareBounds | evaluations/rag/metrics.py:22-60 | recall and precision lie in [0, 1] for every input |
| Metrics.MrrMeetsRecall | evaluations/rag/metrics.py:63-75 | the reciprocal rank reaches 1/k exactly when recall@k is positive |
| Metrics.RecallIsRight | evaluations/rag/metrics.py:36-46 | recall times the expected chunks is the number of distinct expected chunks among the first k |
| Metrics.PrecisionIsRight | evaluations/rag/metrics.py:49-60 | precision times the retrieved chunks, at most k, is that number too |
| Metrics.NdcgAtK | evaluations/rag/metrics.py:78-107 | the two accumulation loops: the discounted hits among the first k over the discounts of as many first ranks as there are expected chunks, at most k, and 0 when that is 0 |
| Metrics.MeanReciprocalRank | evaluations/rag/metrics.py:63-75 | the scan with its early return: the reciprocal of the first hit's rank, 0 without a hit |
| JsonLines.LoadsBackExactly | evaluations/livestream/dataset.py:419-421 | a file of JSON records written one a line loads back in full exactly when no record holds U+0085, U+2028 or U+2029; otherwise some line does not load |
| JsonLines.CutLines | evaluations/livestream/dataset.py:419-421 | the first line with such a character comes back cut short, in its place |
| DatasetFile.LoadEvents | evaluations/livestream/dataset.py:411-458 | the loading loop: the events and faults of the lines, in line order; a line has an event or the fault that it has none, and is faulted for unknown fields exactly in schema v2 and for its payload exactly outside the whitelist |
| DatasetFile.SanitizedWhitelisted | evaluations/livestream/dataset.py:143-148 | whatever the sanitizer stores passes the whitelist |
| DatasetFile.LoadedExactly | evaluations/livestream/dataset.py:411-458 | the validator loads exactly the written events, and without a fault exactly when they are whitelisted, when no stored text holds a separator; otherwise it reports a fault |
| DatasetFile.WrittenFileExactly | evaluations/livestream/dataset.py:336-409 | for every timeline the written files pass the recomputation checks exactly when no stored text holds a separator |
| DatasetFile.BreakingMessage | evaluations/livestream/dataset.py:240-254 | one ordinary message whose text holds U+2028 makes its dataset invalid |
| CacheFile.CacheReopensExactly | evaluations/livestream/cleaning.py:174-188 | the cache file can be opened again exactly when no cached decision holds a separator, and then gives back every decision |
| LogText.SplitWhole | scripts/train/review_data.py:508-511 | a line without line breaks comes back whole from `splitlines` |
| LogText.SplitCut | scripts/train/review_data.py:508-511 | a line with a break comes back cut at it |
| LogText.ObjectBreaks | scripts/train/review_data.py:93-94 | a canonical JSON object stays on one line exactly when none of its texts holds U+0085, U+2028 or U+2029 |
| Ledger.ReadIsAccepted | scripts/train/review_data.py:504-526 | whatever the reader accepts is a chain: right positions, predecessor hashes and own hashes |
| Ledger.HeadFixesLog | scripts/train/review_data.py:504-526 | unless two of their own events collide under the hash or one hashes to the empty-log value, two accepted logs with one head hash hold the same events |
| Ledger.HeadFixesStringLog | scripts/train/review_data.py:504-526 | and are equal when every hash is stored as a string |
| Ledger.ReadBack | scripts/train/review_data.py:504-526 | a chained log written line by line is read back whole exactly when every event stays on its line; otherwise reading stops at the first that does not |
| EventText.LineUnique | scripts/train/review_data.py:93-94 | the line of a recorded event is the line of no other event, and a proper beginning of none |
| EventText.TrustedCodecExists | scripts/train/review_data.py:93-94 | so what the store asks of its hash, `str` and JSON functions can be met |
| Review.StepKeepsSound | scripts/train/review_data.py:576-638 | every call keeps the log chained, each request id at most once, and only extends it |
| Review.StepIsRight | scripts/train/review_data.py:576-638 | a call answers exactly an admissible request on a readable log; a fresh one appends an event with the decision, request id, item id and stripped reviewer, transcript and notes of the request, linked to the log and traced to its item, and drops the draft; a repeated one returns its event; anything else changes nothing |
| Review.RunDecides | scripts/train/review_data.py:528-532 | over every run of calls the latest event of an item is the one of the last fresh request for it, with that decision, reviewer, transcript and notes, or the one before the run when there was none |
| Review.ReadableExactly | scripts/train/review_data.py:595-629 | after a call the log can still be read exactly when the call wrote nothing or its stripped reviewer, transcript and notes hold no U+0085, U+2028 or U+2029 |
| Review.RunReadableExactly | scripts/train/review_data.py:576-638 | over every run of calls, the log stays accepted exactly when no call wrote such a text |
| Review.RunKeepsTraced | scripts/train/review_data.py:602-623 | over every run of calls, each event repeats its queue item and its `previous_transcript` is that of the item's event before it, or the queue's |
| Review.CutLogIsStuck | scripts/train/review_data.py:594-596 | once a line is cut, every later call fails and changes nothing |
| Review.BreakingDecision | scripts/train/review_data.py:576-638 | a concrete accepted decision whose transcript holds U+2028: the call succeeds and the log can never be read again |
| Review.ReplayReturnsSameEvent | scripts/train/review_data.py:596-600 | over every run of calls that starts with an answered request, repeating its id returns the same event and changes nothing, whatever the repeated call asks for |
| Review.RunAll | scripts/train/review_data.py:576-638 | the state after any run of calls is sound and extends the log as a prefix |
| Review.FindItem | scripts/train/review_data.py:482 | the queue item of an id, or none when no item has it |
| Review.AdmittedExactly | scripts/train/review_data.py:566-593 | the checks before the lock pass exactly the requests with a well-formed id, a decision, a known item, a reviewer of 1 to 120 characters, bounded texts and a transcript for what is accepted |
| Review.FirstWith | scripts/train/review_data.py:596-598 | the first event of a request, or none when there is none |
| Review.LatestOf | scripts/train/review_data.py:528-532 | the last event of an item, or none when there is none |
| ReviewStores.CountsSumToQueue | scripts/train/review_data.py:640-655 | the four decision counts sum to the queue size |
| ReviewStores.ReadyExactly | scripts/train/review_data.py:640-686 | the gate opens exactly when every item's latest decision is accepted or rejected and at least 1800 seconds are accepted |
| ReviewStores.Latest | scripts/train/review_data.py:528-532 | the dictionary holds exactly the last event of every item |
| ReviewStores.ComputeStatus | scripts/train/review_data.py:640-688 | the fold over the queue computes the status, whose counts, durations and gate are those of the items' last events |
| ReviewStores.StatusIsRight | scripts/train/review_data.py:640-688 | the specified status counts the items whose last event says each decision, or none, sums the accepted durations, counts the rewritten transcripts and opens the gate exactly when nothing is left and 1800 seconds are accepted |
| ReviewStores.Events | scripts/train/review_data.py:504-526 | the line loop returns what the reader specifies, with the first fault's kind and line |
| ReviewStores.FindRequest | scripts/train/review_data.py:596-598 | the search returns the first event of the request |
| ReviewStores.ReviewStore.constructor | scripts/train/review_data.py:472-483 | a fresh run has an empty log and no drafts |
| ReviewStores.ReviewStore.ReadsOwnLog | scripts/train/review_data.py:504-526 | the store's own file reads back as its log, or as the first cut line |
| ReviewStores.ReviewStore.Append | scripts/train/review_data.py:601-637 | one event that carries the request is appended, the item's draft dropped, the status of the new log written |
| ReviewStores.ReviewStore.RecordDecision | scripts/train/review_data.py:576-638 | log, drafts, answer and status are those of the state machine's step, and on a traced log the event of a fresh request carries its decision, ids and stripped texts |
| ReviewStores.ReviewStore.SaveDraft | scripts/train/review_data.py:541-574 | a valid draft replaces the item's draft, stripped; anything else changes nothing |
| ReviewStores.ReviewStore.CurrentStatus | scripts/train/review_data.py:690-694 | fails exactly on an unreadable log, else stores the specified status, whose counts sum to the queue |
| ReviewQueue.CreateQueue | scripts/train/review_data.py:376-411 | the first thing wrong, in order: a repeated source, the first clip or recording with a fault, a repeated item; otherwise one item per clip, with its fields and its source's, and one per unheard recording, sorted by priority, scene and id, which fit the manifests |
| ReviewQueue.PrepareClips | scripts/train/review_data.py:207-218 | one item per clip, or the fault of the first clip whose source is not registered or whose audio path is blank, outside the project or no file |
| ReviewQueue.CollectUnresolved | scripts/train/review_data.py:296-350 | one item per unregistered raw row without text, or the first of them without an audio file |
| ReviewQueue.QueuedFits | scripts/train/review_data.py:408-411 | sorting the collected items keeps what the apply step relies on |
| ReviewApply.ApplyBehindGate | scripts/train/review_data.py:1003-1067 | behind the gate no lookup fails, every clip ends accepted or rejected with its own item's latest decision, and added plus excluded equals the unresolved items |
| ReviewToSplit.AppliedClipsValidExactly | scripts/train/workspace.py:466-494 | the clips an apply writes pass `_validate_clips` exactly when every clip it read has an id and every one it accepts came with a source id and a digest of 64 hexadecimal digits |
| ReviewToSplit.BlankDigestIsRefused | scripts/train/review_data.py:1057-1067 | concretely: a queued clip without a digest is accepted and applied, and the clip validator refuses what was written |
| ReviewToSplit.ReceiptIsLost | scripts/train/review_data.py:1069-1101 | concretely: with a failing receipt write that review changes the manifests and leaves no receipt |
| ReviewApply.AcceptedClipsFilled | scripts/train/workspace.py:476-488 | every clip of a queue item that the apply step leaves accepted has a non-blank transcript and reviewer |
| ReviewApply.AppliedManifests | scripts/train/review_data.py:985-1101 | on the frozen manifests the whole apply can fail only through a refusal or unreadable audio; its receipt balances and no written clip is pending |
| ReviewApply.ApplyItemKeepsProgress | scripts/train/review_data.py:1013-1067 | one settled item keeps the loop invariant |
| ReviewApply.ReviewOne | scripts/train/review_data.py:1057-1067 | rewriting one clip through the dictionary touches no other clip |
| ReviewApply.ApplyLoop | scripts/train/review_data.py:1003-1067 | the loop over the queue computes the specified fold and stops at the first failure |
| ReviewApply.ApplyOne | scripts/train/review_data.py:1013-1067 | one iteration, with its dictionary lookups |
| ReviewApply.PassGate | scripts/train/review_data.py:993-995 | the unreadable log, the closed gate, or the log with its status |
| ReviewApply.Prepare | scripts/train/review_data.py:985-1067 | the refusals in order, then the rewritten rows and the receipt |
| ReviewApply.Workspace.Apply | scripts/train/review_data.py:985-1101 | refused for a reason that holds, failing exactly when some new audio cannot be processed; otherwise every row is rewritten by its own item's last decision, the new ones added, and the receipt counts them; a failed manifest write is rolled back; a failed receipt write leaves the new manifests without a receipt |
| ReviewApply.ApplyIsRight | scripts/train/review_data.py:985-1101 | the specified step has those properties, stated on the rows |
| ReviewApply.BooksAreRight | scripts/train/review_data.py:1003-1067 | the fold over the queue rewrites each clip and source by the last decision on its item, adds a source and a clip for every unresolved item that was not rejected, in queue order, and counts what it did |
| ReviewApply.AllOrNothingExactly | scripts/train/review_data.py:1069-1101 | an apply writes all or nothing exactly when it is refused, a manifest write fails, the receipt write succeeds, or the manifests had nothing to change |
| ReviewApply.LostReceiptIsStuck | scripts/train/review_data.py:985-1101 | after a lost receipt over changed manifests no later run of calls changes the workspace, and behind an open gate it is the manifest digests that refuse |
| ReviewApply.RetryExactly | scripts/train/review_data.py:985-1101 | repeating a call whose receipt was lost succeeds exactly when it had not changed the manifests |
| FreezeSplit.WrittenSplitIsValid | scripts/train/workspace.py:173-220 | the written split is always accepted: it covers exactly the accepted clips, no source is in both halves, both halves are non-empty, one non-empty revision |
| FreezeSplit.SplitByRank | scripts/train/workspace.py:194-210 | a row is in validation exactly when its source was chosen, the number chosen is the clamped rounded share, and no chosen source ranks after one left in training |
| FreezeSplit.SplitIgnoresOrder | scripts/train/workspace.py:173-220 | the split and its revision do not depend on the order of the clip rows |
| FreezeSplit.SourcesSplit | scripts/train/workspace.py:194-199 | some, but not all, sources are chosen for validation |
| FreezeSplit.SourcesAlike | scripts/train/workspace.py:190 | the sorted source list does not depend on row order |
| FreezeSplit.ValidationSources | scripts/train/workspace.py:194-199 | between 1 and n - 1 sources are chosen |
| FreezeSplit.SplitRows | scripts/train/workspace.py:201-210 | one split row per accepted clip |
| FreezeSplit.ValidateClips | scripts/train/workspace.py:466-494 | no error exactly when every row is valid by itself and the stripped clip ids are distinct |
| FreezeSplit.ValidClipsIgnoreOrder | scripts/train/workspace.py:466-494 | clip validity does not depend on row order |
| FreezeSplit.ValidateFrozen | scripts/train/workspace.py:497-528 | no error exactly on a split that covers the accepted clips, leaks no source, has both halves and one non-empty revision |
| FreezeSplit.SingleHalves | scripts/train/workspace.py:514-522 | every source has one half seen exactly when no source leaks |
| FreezeSplit.HalvesMeet | scripts/train/workspace.py:523-525 | with one half per source, the picked halves are both exactly when both halves occur and no other |
| LogText.StripTwice | scripts/train/workspace.py:506-512 | stripping a stored text again changes nothing, so what was written is what is compared |
| FreezeSplit.Freeze | scripts/train/workspace.py:173-220 | each refusal exactly when its condition holds; otherwise one row per accepted clip, in id order, in validation exactly when its source is among the first-ranked of a share rounded to even and clamped, all under the hash of the sorted clips, with a summary of those counts |
| FreezeSplit.FreezeIsRight | scripts/train/workspace.py:173-220 | the specified split has those properties and passes the validator |

## Left out

- Pipeline.Publish: states the family guarantees for schema-v1 sources only, whose own validation is reduced to timeline, counts and checksum; the evidence output is left out; the events of a staged dataset are those that were written, which `DatasetFile.LoadedExactly` shows to be what is loaded exactly for texts without separators.
- Pipeline.Validate: the language, privacy and processing-metadata checks of the validator are one uninterpreted predicate on the dataset.
- Pipeline.BuildFamily: the language, privacy and processing-metadata checks are not part of the guarantee, and the derivation and processing metadata of the manifests are not modelled.
- CleaningRun.Clean: requires distinct source sequences, and states its exact outcome for offsets that never decrease, both of which a validated source has; which of several batch failures surfaces is not stated.
- CleaningRun.CleanedIsChinese: that a cached decision is Chinese is assumed, as the cache does not check what it reads.
- CleaningRun.DecisionCache.Put: the file is a list of lines here; `CacheFile.CacheReopensExactly` says when its text gives those lines back.
- HighWorkload.DeriveHighEvents: exact fractions; the slack of 1e-9 in the factor range is ignored.
- Provenance.RealStreamAccepted: payload values are strings or absent; a key that is present with a null is not told apart from an absent one. That the scrubber leaves a placeholder for what it removes and never touches the synthetic prefix is assumed of its text functions.
- RateCap.ShapeRate: offsets are exact reals; the floating-point difference `offset - 60.0` is not rounded.
- Prefilter.PrefilterRecords: text normalization and the deterministic drop rules are function parameters.
- CommentPages.CaptureVod: an edge is given by the offset and the comment it parses to; retries and failed requests are left out, and every request is taken to succeed.
- CommentPages.CompleteExactly: the service is taken to answer an offset with the comments from there on in time order, at least 59 of them while there are more, which is what the refinement rule relies on.
- Semantic.ProcessBatch: prompts and the repair messages sent back to the model are left out; the three replies are arbitrary values of a JSON-like type.
- Metrics.NdcgAtK: the discount is any function with the stated monotonicity instead of 1 / log2(i + 2).
- Socket.FullStackProcessor.Begin: task ids are given fresh by the caller instead of generated; a close is one step although the code awaits the disconnect.
- Review.RunAll: logs edited by hand are outside the state machine; a log with missing keys, which the code meets with a key error, is covered only by the reader and the head-hash theorems.
- Ledger.ReadBack: `json.loads` is a parameter that gives back what was dumped and refuses an object cut short; SHA-256 is a parameter; what is asked of it is that the events of the two compared logs do not collide and none hashes to all zeros.
- ReviewStores.ReviewStore.RecordDecision: the lock is left out (calls are atomic steps), and so is a crash between the append and the draft file.
- ReviewStores.ComputeStatus: batch numbers, rounding of the reported durations and the blocker texts are left out.
- ReviewQueue.CreateQueue: the priority read from flags and notes is a parameter; a missing raw manifest column, several raw manifests and an existing run are left out, as are queue index and batch number; a digest is lower-cased in ASCII.
- ReviewApply.Workspace.Apply: rows are values addressed by number, the dictionary's row aliasing is the row number; putting a manifest back is taken to succeed.
- FreezeSplit.Freeze: other manifests and the project table are one flag; lower-casing is ASCII, which is exact for the hexadecimal digests the validator demands; a row with several blank fields reports one error instead of several.
- Sets that the code builds are lists without repeats where an element is picked from them.
- DatasetFile.WrittenFileExactly: `json.dumps` and `json.loads` of an event are parameters that give back what was dumped and refuse an object cut short.
- CSV formats and the JSON of manifests, fsync, atomic renames, staging directories and the network.
- Regular expressions, Unicode classification and prompt text.
- The organized review report, the review web page and `page`, evaluation locks, training plans and command construction.
- Reporting and hard-gate thresholds, latency percentiles, chunk diversity and bootstrap intervals: each is settled by reading one branch or belongs to an unseen library.
- Docker, process lifecycle, audio analysis, retrieval indexes, contract generators and the front end.
