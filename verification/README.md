# Receipt OCR service: a verified model

The service accepts receipt image URLs over HTTP, keeps one Postgres row per job, passes jobs to
worker slots through a Redis list, and lets a sweeper and a purge tidy up behind crashed workers.
A slot downloads and hashes the image, asks a phash cache, detects and crops, takes a token from a
rate limiter, has Gemini extract the invoice, and postprocesses and stores the result. A separate
script scores predictions against labels. The project models these parts and proves what they keep.

* **The job protocol** (`SlotMachine`, `Protocol`). The service is a step system in which one event
  is one Postgres, Redis or pipeline call; events of API requests, worker slots, sweepers, purge,
  rate refresh and clock interleave freely, every call may fail, and slots, submits and sweepers may
  stop between any two calls. `WorkerLoop` holds `execute_task_lifecycle` in its own form, with
  early returns and exceptions, and proves it against the step function while everybody else does
  anything they like between its calls; `WorkerTask` is the loop around it. `Exits`, `Lifecycles` and
  `Events` say in plain terms where each call leads and what it writes. The theorems over runs are in
  `Messages`, `Requeues`, `Counts`, `Urls`, `Windows`, `CacheHits`, `Terminal`, `TerminalExact`,
  `TerminalRuns`, `Stranded`, `CacheTransparency`, `GeminiBudget` and `Routes`.
* **The rate limiter** (`TokenBucket.dfy`, `RateRefresh`): what exactly is granted, with and without
  reconfiguration.
* **The evaluation scorer** (`Evaluation`, `Scoring`, `CompareMoney`, `Alignment`, `Results`, `RoundTrip`,
  `RoundTripFails`): the greedy alignment is a maximal matching, and scoring the skeleton of a report
  gives the report again, exactly when nothing is displaced.
* **The deterministic pipeline** (`Whitelist`, `Money`, `Postprocessor`, `Detector`, `Extractor`).

`dafny verify dfyconfig.toml` checks everything.

## What the model takes for granted

* A failed call is not applied. HINCRBY and EXPIRE of the requeue counter are two calls, so the
  counter may be bumped and the call still fail; both failures count as blips.
* `uuid4` ids are fresh. A job id is a natural number; only its identity matters.
* Clock readings, answers of foreign calls and the order of a sweeper's snapshot are parameters or
  free choices of the environment.
* The limiter, the letterbox and all scores are over exact reals.
* Text functions of Python and its libraries (strip, lower, NFC, digit and space classes, `float`,
  `difflib`, `rapidfuzz`) are parameters; each theorem states the laws it needs of them in a
  predicate named `Lawful`, `TextLawful` or `ParseLawful`. `RoundTripFails.PlainIsLawful` has a text
  model that meets those of the scorer.
* A mismatch's field `product[i].f` is the value `Product(i, f)` instead of a string.

## Where code and documentation disagree

* `architecture.md:422` says that a terminal status never changes, and `src/worker/sweeper.py:8-9`
  relies on writes to a terminal row being no-ops. The UPDATE is unguarded, so a terminal status can
  be overwritten (`TerminalRuns.TerminalStatusOverwritten`). It is final exactly in the states that
  `Terminal.Settled` describes (`TerminalExact.StatusFixedExactlyWhenSettled`), and these are the
  terminal states of every run without an overlapping sweep and without a counter blip
  (`TerminalRuns.TerminalAbsorbing`).
* The comment at `src/worker/loop.py:172` says that a phash whose write failed lands with the
  success update. That update passes no phash; the model follows the code.
* The comment at `src/worker/loop.py:288` says that a job whose counter call failed is dropped. It
  is queued there and once more by the caller (`TerminalRuns.BlipDuplicatesMessage`).
* The docstring of `_build_pred_skeleton` promises to reproduce the mismatch pattern. It does so if
  no label row is displaced in the alignment of the skeleton, and those whose own row of it does not
  score had nothing right (`RoundTrip.SettledScoresTheSame`), and only if where
  `RoundTrip.SkeletonScoresTheSameExactly` applies. Names that tell priced rows apart ensure it when
  no price is blank (`RoundTrip.SkeletonScoresTheSame`). It fails for a label that has one name at two
  prices, when the prediction has a name near enough to count as right and the second price
  (`RoundTripFails.RepeatedNamesBreakRoundTrip`): two names of 21 characters that differ in one are near
  enough, since the ratio of "BANH GAO ONE-ONE 150G" and "BANH GAO ONE-ONE 160G" is 40 / 42. It also
  fails for a price of one blank predicted where the label has "0"
  (`RoundTripFails.BlankPriceBreaksRoundTrip`).
* The sweeper counts every row it selected as recovered, also when the write failed, because
  `_fail` never raises (`Sweeper.SweepOnce`).
* A quantity that parses as an infinity or NaN, such as "inf", and no other, makes `postprocess`
  raise (`Postprocessor.PostprocessRaisesExactly`), and the job fails as `lifecycle_uncaught`.
* Images 1280 times longer than wide lose a side in the letterbox (`Detector.LetterboxVanishes`).

## Model

| member | source | states |
|---|---|---|
| `TokenBuckets.TokenBucket.Acquire` | src/utils/token_bucket.py:23-32 | grants iff the level, refilled up to the burst, is at least one, and takes one then; keeps 0 <= tokens <= capacity when the clock does not run backwards |
| `TokenBuckets.TokenBucket.UpdateConfig` | src/utils/token_bucket.py:34-38 | the rate and the burst become those given, higher or lower, the level is cut down to the new burst, and nothing else changes; keeps 0 <= tokens <= capacity |
| `TokenBuckets.LevelIsTightestWindow` | src/utils/token_bucket.py:23-32 | the level on which a call decides is the minimum over all earlier calls of burst + rate * elapsed - grants since |
| `TokenBuckets.GrantedExactlyWhenEveryWindowAllows` | src/utils/token_bucket.py:23-32 | a call is granted iff one more grant keeps every window that ends now within burst + rate * elapsed |
| `TokenBuckets.GrantedExactlyUnderRefresh` | src/worker/rate_refresh.py:18-22 | the same iff with refreshes that find the limits unchanged anywhere between the calls |
| `TokenBuckets.WindowBound` | src/utils/token_bucket.py:23-32 | no window between two calls is ever granted more than burst + rate * length |
| `TokenBuckets.TokensAccounted` | src/utils/token_bucket.py:23-38 | over any mix of calls and reconfigurations 0 <= tokens <= capacity, and grants plus what is left never exceed the start level plus what was earned |
| `TokenBuckets.InForce` | src/utils/token_bucket.py:23-38 | after any mix of calls and reconfigurations the bucket works with the rate and burst of the last reconfiguration and the time of the last call, as the operations alone determine them |
| `TokenBuckets.LevelUnderReconfiguration` | src/utils/token_bucket.py:23-38 | and the level is exactly the minimum, over the start and every operation, of the most that it left (the start level, or the burst then in force less the grant) plus what was earned since at the rates in force minus what was granted since |
| `TokenBuckets.GrantedExactlyUnderReconfiguration` | src/utils/token_bucket.py:23-38 | so any call is granted iff one grant fits into the burst in force and into every one of these remainders with what the last gap earns |
| `TokenBuckets.ReconfiguredWindowBound` | src/utils/token_bucket.py:23-38 | grants from a call on are at most the capacity then plus each later gap times the rate in force at the call that closes it |
| `RateRefresh.RefreshRates` | src/worker/rate_refresh.py:16-32 | rate and burst are in the end those of the last successful read of the limits, the level is cut, and failed reads change nothing |
| `RateRefresh.CutIsLeast` | src/worker/rate_refresh.py:16-32 | the cut level is the least of the old one and all bursts read |
| `WorkerTask.RunTask` | src/worker/main.py:43-59 | every message taken is executed once, to its end, before the next is taken; only an error that escapes the pop ends the worker before shutdown |
| `WorkerTask.TakenTurnByTurn` | src/worker/main.py:43-59 | a turn takes the oldest message if there is one, nothing on an empty queue or a lost connection, and no turn takes any from the one on in which the pop raises |
| `SlotMachine.StepDescends` | src/worker/loop.py:111-295 | whatever the answers, every call brings a lifecycle closer to its end, so it makes at most 21 calls |
| `WorkerLoop.Lifecycle.Execute` | src/worker/loop.py:111-277 | whatever others do between its calls and however these are answered, the lifecycle makes exactly the machine's steps and ends |
| `WorkerLoop.Lifecycle.RunStages` | src/worker/loop.py:121-250 | the body of the outer try ends the job, or raises exactly what the outer handlers turn into the machine's failure write |
| `WorkerLoop.Lifecycle.Claim` | src/worker/loop.py:122-143 | status check and mark: drop, yield, raise, or go on with the phash that was read |
| `WorkerLoop.Lifecycle.Fetch` | src/worker/loop.py:145-172 | download, preprocess and phash write with their exits; a failed phash write is ignored only if the database is unavailable |
| `WorkerLoop.Lifecycle.Admit` | src/worker/loop.py:192-209 | detection and token, with the counted and the uncounted yield |
| `WorkerLoop.Lifecycle.CallGemini` | src/worker/loop.py:211-226 | the four outcomes of an extraction and where each leads |
| `WorkerLoop.Lifecycle.Finish` | src/worker/loop.py:236-250 | postprocess and persist, with the yield on an unavailable database |
| `WorkerLoop.Lifecycle.Fail` | src/worker/loop.py:62-89 | writes the failure status and never raises |
| `WorkerLoop.Lifecycle.YieldToQueue` | src/worker/loop.py:92-96 | touch, then push; a failure of either is raised |
| `WorkerLoop.Lifecycle.BumpOrOrphan` | src/worker/loop.py:280-295 | below the cap the caller yields, above it the job is orphaned, and on a blip it yields itself before its caller does |
| `WorkerLoop.TrailDetermined` | src/worker/loop.py:111-277 | one script of interference and answers allows one complete trail only, of at most 21 calls |
| `Exits.UncountedExactly` | src/worker/loop.py:118-248 | a job is put back without a count iff the database was unavailable at the status check, the mark or the last write, the token was refused, or Gemini's first reply that is no server error or timeout is a 429 |
| `Exits.CountedExactly` | src/worker/loop.py:152-223 | its counter is bumped iff download or detection was unavailable, or all four Gemini replies are server errors or timeouts |
| `Exits.BumpExactly` | src/worker/loop.py:280-295 | a bump adds one to the live count, up to three put the job back, a fourth orphans it, and a failed counter call puts it back twice |
| `Exits.CounterExactly` | src/storage/redis_client.py:120-128 | the first bump starts a counter at one without expiry, the second call lets it live an hour, and no other counter changes |
| `Exits.FailsExactly` | src/worker/loop.py:148-277 | the job is failed for good iff the pipeline or Gemini's first real reply rejects it or its counter stands at three, and for now iff an exception reaches the outer handlers |
| `Exits.FailureCode` | src/worker/loop.py:148-277 | with the code of each case, and the message of the exception |
| `Exits.DoneExactly` | src/worker/loop.py:118-250 | a call ends the lifecycle iff nobody waits for the job, the result is stored, the last push is done, or it was a failure write |
| `Exits.GoesOn` | src/worker/loop.py:118-250 | all other calls lead to the next stage, a known phash skipping its write and a cache hit all up to postprocessing, and carry phash, raw and final invoice along |
| `Exits.RowsExactly` | src/storage/postgres_client.py:96-138 | what each successful call writes into the row of its job, field by field, and nothing else |
| `Exits.RedisExactly` | src/storage/redis_client.py:69-117 | the queue grows by a push alone, and the cache by a cache write alone, under phash and prompt version and for a day |
| `Lifecycles.StoresExactly` | src/worker/loop.py:111-277 | a whole lifecycle stores a result iff none of its calls meets any of these troubles |
| `Lifecycles.StoredResult` | src/worker/loop.py:174-246 | and that is the postprocessed invoice from its cache hit or from Gemini's first real reply, in a SUCCEEDED row |
| `Lifecycles.EndsExactly` | src/worker/loop.py:111-277 | every other lifecycle drops an unwanted job at its first call, puts the job back, or tries to write a failure |
| `StorageClients.PostgresClient.CreateJobRecord` | src/storage/postgres_client.py:82-94 | one new PENDING row, or an error and nothing |
| `StorageClients.PostgresClient.UpdateJobStatus` | src/storage/postgres_client.py:96-131 | writes status, time and each supplied field into the column of its name, leaves the others and all other rows, and nothing if the row is missing or the check constraint refuses |
| `StorageClients.PostgresClient.TouchUpdatedAt` | src/storage/postgres_client.py:133-138 | writes updated_at of the one row |
| `StorageClients.PostgresClient.SelectStaleJobs` | src/storage/postgres_client.py:147-163 | exactly the rows PROCESSING and not written for more than 900 s, or PENDING and created more than 1800 s ago, each once |
| `StorageClients.PostgresClient.PurgeOldJobRecords` | src/storage/postgres_client.py:165-182 | removes and counts exactly the terminal rows not written for more than ninety days |
| `JobsTable.BuildUpdate` | src/storage/postgres_client.py:107-128 | executing the SET list and its parameters on any row writes exactly the supplied fields, every $k bound to its own value |
| `StorageClients.RedisClient.PushToQueue` | src/storage/redis_client.py:59-65 | the message is put in at the end opposite to where pops take, or nothing |
| `StorageClients.RedisClient.PopFromQueue` | src/storage/redis_client.py:67-86 | the oldest message; None on an empty queue or lost connection; other errors raise |
| `StorageClients.RedisClient.GetPhashCache` | src/storage/redis_client.py:95-106 | the unexpired entry under phash and prompt version |
| `StorageClients.RedisClient.SetPhashCache` | src/storage/redis_client.py:108-117 | one entry with its expiry |
| `StorageClients.RedisClient.IncrementCounter` | src/storage/redis_client.py:120-123 | the live count plus one, an expired key counting as absent |
| `StorageClients.RedisClient.ExpireCounter` | src/storage/redis_client.py:124-125 | sets the expiry of the counter and nothing else |
| `CacheHits.HitsForADay` | src/storage/redis_client.py:95-117 | over all runs a read within a day of a cache write under the same phash and prompt version hits, and reads what was written unless it was written again; after a day it misses |
| `Messages.QueueIsFifo` | src/storage/redis_client.py:56-90 | every event leaves the queue, puts one message in front, or hands the one at its end to a slot |
| `Events.SubmitExactly` | src/api/routes.py:60-103 | what each event of a submit does: admitted below 500 messages or if the look fails, one PENDING row, one message behind all others |
| `Events.SweepExactly` | src/worker/sweeper.py:25-42 | the snapshot is exactly the overdue rows with their status, and a successful write fails the next of them and no other |
| `Urls.UrlKept` | src/api/routes.py:62-103 | over all runs row, messages and slots of a job have the URL it was submitted with |
| `Messages.StepConservesStake` | src/worker/loop.py:92-96 | one call pushes at most one message, and what a slot owes the queue grows only by a counter blip |
| `Messages.MessageConservation` | src/worker/loop.py:280-295 | in every reachable state queued messages of a job plus slots and submits holding it are at most 1 + its failed counter calls |
| `Messages.PushEndsHold` | src/worker/loop.py:92-96 | if none has failed, a slot that pushes is idle after it and nobody else holds the job |
| `TerminalRuns.BlipDuplicatesMessage` | src/worker/loop.py:285-290 | a run from boot attains the bound: one failed counter call, and the job is queued twice |
| `Messages.QueueDepthBound` | src/api/backpressure.py:24-38 | under every interleaving depth <= REJECT - 1 + slots + concurrent submits + fail-open admissions + blips |
| `Counts.DepthExplained` | src/api/backpressure.py:24-38 | the same, the fail-open admissions and failed counter calls being those among the events of the run |
| `Requeues.LivesBounded` | src/storage/redis_client.py:120-128 | over all runs the counter of a job starts at most once, and once more for every TTL that has passed |
| `Requeues.BoundedRequeue` | src/worker/loop.py:280-295 | counted yields are at most REQUEUE_MAX * (1 + now / TTL), and pops at most 1 + these + uncounted yields + 2 per blip |
| `Requeues.BoundedRequeueWithoutExpiry` | src/worker/loop.py:280-295 | while the counter has not expired, counted yields are at most REQUEUE_MAX, and pops at most 1 + REQUEUE_MAX + uncounted yields + 2 per blip |
| `Requeues.StepCountsOnce` | src/storage/redis_client.py:120-128 | one call changes no counter but its own job's, by one bump at most, and a counted yield never happens above REQUEUE_MAX |
| `Counts.PopsExplained` | src/worker/loop.py:280-295 | told by the events of the run: the pops of a job are at most 4 while its counter has not expired, or 1 + 3 * (1 + now / 3600), plus the calls that found it not to blame (database, token, 429) and twice the failed counter calls |
| `Terminal.StepWritesOwnRow` | src/worker/loop.py:138-250 | a lifecycle call writes the row of its own job only, only the status its place demands, and never adds a row |
| `Terminal.TableInvariants` | migrations/versions/0001_initial_jobs.py:30-34 | over all runs SUCCEEDED has a result, nothing returns to PENDING, and a purged row is never recreated by a leftover message |
| `Terminal.FinalRun` | src/storage/postgres_client.py:128-131 | a settled terminal status survives every continuation, whatever fails or crashes |
| `TerminalExact.StatusFixedExactlyWhenSettled` | src/storage/postgres_client.py:128-131 | a terminal status is final iff the state is settled: from every other state some run shows another status |
| `Terminal.RestingRun` | src/storage/postgres_client.py:128-131 | a settled SUCCEEDED row, and a settled FAILED_PERMANENT row whose job no slot has, is never written again, only purged |
| `TerminalRuns.TerminalAbsorbing` | architecture.md:422 | after a run in which no sweep of the job overlapped a slot holding it and no counter call failed for it, its terminal status never changes, nor does anything in a SUCCEEDED or FAILED_PERMANENT row |
| `TerminalRuns.TerminalStatusOverwritten` | src/worker/sweeper.py:25-42 | a concrete run in which a sweep overtakes a slow slot and FAILED_TRANSIENT is overwritten by PROCESSING |
| `Stranded.NoStrandedJob` | src/worker/loop.py:252-274 | in every reachable state an unfinished job is queued or held, or its row stays exactly as it is until a sweep writes it |
| `Stranded.SweepRecoversFrozenJob` | src/storage/postgres_client.py:147-163 | a job that nothing stands for, past its window, is FAILED_TRANSIENT after any sweep that selects then and gets as far as writing it, whatever becomes of its other writes |
| `Windows.LeftAlone` | src/storage/postgres_client.py:147-182 | over all runs a PROCESSING row written within 900 s and a PENDING row created within 1800 s enter no snapshot, and no row goes within ninety days of its last write |
| `Windows.CallRenews` | src/storage/postgres_client.py:133-138 | every successful write or touch of a slot sets that time anew |
| `Windows.InsertStarts` | src/storage/postgres_client.py:82-94 | the INSERT makes a PENDING row with its URL, both times set, and nothing else |
| `Sweeper.SweepOnce` | src/worker/sweeper.py:25-42 | the pass over the stale rows, each counted as recovered even if its write failed; rows not overdue stay as they were, and the others too or are FAILED_TRANSIENT with code stale_timeout and the status seen |
| `Sweeper.SweptRow` | src/worker/sweeper.py:28-37 | a row is failed iff it was selected and its write succeeded, with the status the snapshot saw in its message |
| `Routes.SubmitReceipt` | src/api/routes.py:59-103 | 202 iff not rejected for depth, domain allowed, row stored and message queued; what each other code leaves behind |
| `Routes.FinalAnswersRepeat` | src/api/routes.py:121-141 | after an undisturbed run a 200, 422 or 503 derived from a terminal row repeats on every later successful read until the purge, a 200 or 422 in full and 200 always with an invoice |
| `Routes.AnswerExactly` | src/api/routes.py:121-141 | 200 iff SUCCEEDED, 202 iff in flight, 422 iff FAILED_PERMANENT, 503 iff FAILED_TRANSIENT, 404 iff there is no row, with the row's own result, status or error |
| `Routes.LastWriteIsAnswered` | src/worker/loop.py:62-89 | after the last write of a lifecycle a read answers the result stored, or the code and message it was failed with |
| `CacheTransparency.ResultsComeFromRawExtractions` | src/worker/loop.py:174-246 | every stored result is postprocess applied once to a raw extraction made for the phash and under the prompt version of the slot that stored it, the phash being that of one of the job's images; only raw extractions are ever cached, each under its phash and prompt version |
| `CacheTransparency.CachedEqualsUncached` | src/worker/loop.py:174-238 | if extraction depends on phash and prompt version only, a result is what the slot that stored it computes without a cache, from its phash under its prompt version |
| `CacheTransparency.OneVersionEqualsUncached` | src/config/settings.py:94-95 | with one prompt version in all processes, and extraction under it depending on the phash only, every result is that of the pipeline without a cache under that version |
| `GeminiBudget.GeminiCallBudget` | src/worker/loop.py:206-214 | over all interleavings of its slots and refreshes one process makes at most (backoffs + 1) * (burst at boot + highest rate * time since boot) Gemini calls, counting all that slots still extracting may have made, and those of extractions cut short |
| `GeminiBudget.GeminiCallBudgetFixed` | src/worker/rate_refresh.py:18-22 | with refreshes that find the limits unchanged, burst and rate are the process's own |
| `Counts.GeminiCallsExplained` | src/worker/loop.py:206-214 | told by the events of the run: the Gemini calls of a process are at most 4 * (burst at boot + seconds * highest rate) |
| `Extractor.RetryStopsAtFirstDecisiveReply` | src/pipeline/extractor.py:101-144 | the outcome is that of the first response that is not retryable, and exhaustion iff all attempts are |
| `Extractor.ExtractInvoice` | src/pipeline/extractor.py:101-144 | the loop as written makes those calls and waits, and its trailing raise is unreachable |
| `Evaluation.FindBest` | scripts/run_eval.py:173-185 | the inner loop computes index and score of the best unused row |
| `Evaluation.GreedyAlign` | scripts/run_eval.py:167-191 | the aligned rows, one per label row and then the leftovers |
| `Evaluation.EvaluateSingle` | scripts/run_eval.py:147-209 | results and mismatches of all comparisons, in order, which the next four rows determine |
| `Scoring.BaseFieldReported` | scripts/run_eval.py:147-161 | for every field of the invoice the results are [right], or [] if the label is silent |
| `Scoring.ProductFieldReported` | scripts/run_eval.py:193-200 | for every product field they are so for each label row and the row aligned with it |
| `Scoring.MismatchesExactly` | scripts/run_eval.py:154-208 | there is a mismatch for every field that the label has and the aligned prediction has wrong, once and in order, with both texts stripped |
| `Scoring.FieldIsRightExactly` | scripts/run_eval.py:129-145 | where right means, after strip and lower: same digits but for zeros in front for amounts, same but for stars for barcodes, same normal form for quantities, ratio above 0.95 for product names, and the same text otherwise |
| `Scoring.ScoreExactly` | scripts/run_eval.py:169-185 | the alignment gives two points for the same unit price, two for the same total, three for the same name |
| `Evaluation.BuildPredSkeleton` | scripts/run_eval.py:539-563 | the label with every mismatch written into it, product rows added where missing |
| `Alignment.BestIsFirstMaximum` | scripts/run_eval.py:173-185 | the inner loop finds the first of the best unused rows |
| `Alignment.ChoicesAreChosen` | scripts/run_eval.py:169-190 | every label row takes the first best row that earlier rows left, and none if nothing left scores |
| `Alignment.GreedyIsMatching` | scripts/run_eval.py:169-190 | aligned pairs score and share no row |
| `Alignment.GreedyIsMaximal` | scripts/run_eval.py:169-190 | no pair that scores is left with both ends free |
| `Alignment.GreedyIsHalfOptimal` | scripts/run_eval.py:169-190 | any matching of scoring pairs is at most twice as large as the greedy one |
| `Alignment.AlignedIsPermutation` | scripts/run_eval.py:186-191 | aligned rows are the predicted rows, each once, plus one blank row per unmatched label row |
| `CompareMoney.AmountIsRightExactly` | scripts/run_eval.py:129-137 | on all inputs an amount is right iff both texts are there and both are blank, or neither is and their digits are the same but for zeros in front |
| `CompareMoney.AmountIsRightByValue` | scripts/run_eval.py:83-87 | on all inputs whose digits are ASCII, blank texts included, that is iff both or neither are blank and they stand for the same number |
| `RoundTrip.SkeletonValue` | scripts/run_eval.py:539-563 | the skeleton holds the stripped prediction where it was wrong and the label elsewhere, and has the label's rows |
| `RoundTrip.SecondAlignmentExactly` | scripts/run_eval.py:169-190 | on all inputs the alignment of the skeleton gives every label row its own row if that scores, and none otherwise, iff no label row would rather take another: one that scores higher for it, or as high and comes first, among the later rows and those that do not score for their own |
| `RoundTrip.SecondRunRepeatsExactly` | scripts/run_eval.py:169-190 | on all inputs the second run gives back to every label row what stands for its partner, and to the others none, iff also every row with a partner still scores |
| `RoundTrip.FirstTheft` | scripts/run_eval.py:169-190 | on all inputs the first label row for which that fails takes such a row |
| `RoundTrip.SameResultsByRow` | scripts/run_eval.py:193-200 | on all inputs scoring the skeleton of a report gives exactly the field results of the original evaluation iff every label row gets on the row it takes then the verdicts it had |
| `RoundTrip.SettledScoresTheSame` | scripts/run_eval.py:452-458 | on all inputs it gives them if no label row is displaced and those whose own row does not score had nothing right |
| `RoundTrip.SkeletonScoresTheSameExactly` | scripts/run_eval.py:452-458 | and only if, provided no price of the label is blank text, and no later label row scores a row that was lost with nothing right in it exactly as high as its own |
| `RoundTrip.PlainSkeletonScoresTheSameExactly` | scripts/run_eval.py:452-458 | when no price on either side is blank text, it gives them iff no label row scores the row of a later one higher than its own |
| `RoundTrip.SkeletonScoresTheSame` | scripts/run_eval.py:452-458 | then it gives them for every prediction if names tell priced label rows apart |
| `Results.OnlyLabelledRows` | scripts/run_eval.py:193-200 | predicted rows beyond the label are compared with nothing |
| `Results.OtherVerdictOtherResult` | scripts/run_eval.py:196-200 | another verdict on any field of a label row is another result |
| `Results.EvaluatedByRow` | scripts/run_eval.py:193-200 | the results of a product field are the verdicts on the label rows that say something about it, in their order |
| `RoundTripFails.RepeatedNamesBreakRoundTrip` | scripts/run_eval.py:539-563 | whatever the text functions: for any label with one name at two prices, and a prediction of a name near enough to count as right at the second price, one price is right and in the skeleton none |
| `RoundTripFails.BlankPriceBreaksRoundTrip` | scripts/run_eval.py:539-563 | whatever the text functions: a blank price predicted where the label has a price of zero loses the row in the skeleton, and a correct product id with it |
| `RoundTripFails.LossWithoutTrace` | scripts/run_eval.py:539-563 | the same without the product id loses the row, and no result changes |
| `RoundTripFails.TieWithoutTrace` | scripts/run_eval.py:539-563 | a row so lost is taken by a later label row that scores it as high as its own, and no result changes: without the condition on ties "only if" fails |
| `RoundTripFails.SwapWithoutTrace` | scripts/run_eval.py:539-563 | a label with a blank price whose two rows of the skeleton change places, and no result changes: without the condition on label prices "only if" fails |
| `Whitelist.BuildIndex` | src/pipeline/whitelist_index.py:73-86 | each bucket lists the names with its key in order, and each lower form leads to the name listed last with it |
| `Whitelist.Match` | src/pipeline/whitelist_index.py:95-133 | the indexed match answers as a scan of the whole list: first best among near names ordered by length bucket, cutoff, full scan only without near names |
| `Whitelist.ScanIsDeterministic` | src/pipeline/whitelist_index.py:95-133 | a scan has one answer |
| `Whitelist.NearExactly` | src/pipeline/whitelist_index.py:107-110 | near means the same first three characters and a length in units of four that differs by one at most |
| `Whitelist.WinsExactly` | src/pipeline/whitelist_index.py:112-130 | the winner has the best score, and among equals is the shortest in units of four, then the first |
| `Whitelist.ScannedExactly` | src/pipeline/whitelist_index.py:28-32 | a store needs 80 among near names or 60 among all if none is near, a product 70 among near names; the winner comes back as listed last, and else the normalised text |
| `Whitelist.WinnerListed` | src/pipeline/whitelist_index.py:124-130 | the canonical lookup of a winner never misses |
| `Whitelist.ListedNameFound` | src/pipeline/whitelist_index.py:95-133 | a listed name is found, whatever its case, as it was listed last |
| `Whitelist.MatchIsIdempotent` | src/pipeline/whitelist_index.py:95-133 | matching a match changes nothing if the entries are normalised |
| `Money.MoneyIsSignAndDigits` | src/pipeline/postprocessor.py:27-41 | on every string the result is the digits, signed iff the first visible character is '-' or '(' |
| `Money.MoneyIsIdempotent` | src/pipeline/postprocessor.py:27-41 | normal forms are their own normal form |
| `Money.MoneyRoundTrip` | src/pipeline/postprocessor.py:27-41 | every integer written with comma or dot groups, minus or parentheses, and any spaces and currency signs around comes back as its plain decimal string |
| `Postprocessor.DatesFanIn` | src/pipeline/postprocessor.py:44-60 | the four ways to write a date come to the same day/month/year |
| `Postprocessor.OtherDatesStripped` | src/pipeline/postprocessor.py:44-60 | any text that is none of the four is only stripped |
| `Postprocessor.DateIsIdempotent` | src/pipeline/postprocessor.py:44-60 | normal dates are their own normal form |
| `Postprocessor.QuantityStableExactly` | src/pipeline/postprocessor.py:69-80 | a normal quantity is its own normal form iff the raw one did not fall back to digits and dots that parse as something printed otherwise |
| `Postprocessor.TenKilos` | src/pipeline/postprocessor.py:69-80 | "10.000kg" comes to "10.000" and that to "10" |
| `Postprocessor.PostprocessRaisesExactly` | src/pipeline/postprocessor.py:74-78 | postprocess raises iff some quantity parses as an infinity or NaN |
| `Postprocessor.PostprocessFieldByField` | src/pipeline/postprocessor.py:83-107 | every field of a result comes from the raw field of its name: amounts as sign and digits, quantities with their value, names as a scan answers, products one by one in order |
| `Postprocessor.PostprocessTwice` | src/pipeline/postprocessor.py:83-107 | postprocessing a postprocessed result changes quantities at most, and nothing iff no quantity was unsettled |
| `Detector.LetterboxFits` | src/pipeline/detector.py:30-43 | the longer side is exactly 640, the other fits, and padding is not negative and even to within a pixel |
| `Detector.LetterboxVanishes` | src/pipeline/detector.py:33-35 | a resized side is 0 iff the image is at least 1280 times longer than wide |
| `Detector.InverseUndoesForward` | src/pipeline/detector.py:66-71 | reversing the letterbox undoes it in exact reals |
| `Detector.InverseNearlyUndoesResize` | src/pipeline/detector.py:66-71 | with the resize rounded to whole pixels it misses by at most 1 / (2 scale) image pixels |
| `Detector.Crop` | src/pipeline/detector.py:63-82 | a crop is not empty and lies within the image |
| `Detector.CropFollowsBox` | src/pipeline/detector.py:63-82 | every side of the crop is within half a pixel of the decoded box widened by its margin, or on the border because that is at most half a pixel inside it; there is no crop only if opposite sides so placed meet |
| `Detector.NothingOutside` | src/pipeline/detector.py:73-80 | so no point of a crop is more than margin + 1/2 from the decoded box |
| `Detector.CropKeepsBox` | src/pipeline/detector.py:73-82 | with margins of half a pixel the crop holds every point of the decoded box on the image, and is not degenerate if the box meets its interior |
| `Detector.ObjectKept` | src/pipeline/detector.py:63-82 | an object boxed where the resize put it stays whole in the crop if the margin is 1/2 + 1 / (2 scale) |

## Left out

- RoundTrip.SkeletonScoresTheSameExactly: its "only if" is not stated for labels with a blank price, nor where a lost row with nothing right in it ties with a later label row's own; there rows can move without any result changing (`RoundTripFails.SwapWithoutTrace`, `RoundTripFails.TieWithoutTrace`).
- Scoring.FieldIsRightExactly: the scorer's own normal form of quantities, which goes through `float`, is a parameter.
- Postprocessor.QuantityStableExactly: `float` and `str` of a float are a parameter; only that `float` reads back what `str` printed is used.
- CacheTransparency.CachedEqualsUncached: equal phashes of different images are one image to it, as they are to the cache.
- Wire behaviour of Triton, Gemini, httpx, asyncpg and redis: only success, failure and the returned value of each call.
- Image decoding, resizing and perceptual hashing: a phash is whatever the answer of preprocessing says.
- In `Protocol` a Redis error that escapes the pop, which ends the worker task, is the crash of an idle slot.
- A message that is not valid JSON or lacks a key: nobody but the service pushes messages.
- Metrics, logging, health endpoints, signal handling, connection pools, prompt loading and deployment.
- A GET whose read of the row fails answers 503; `Routes` models reads that succeed.
- The choice of the most confident box and its threshold in the detector: the crop of any box is modelled.
- The URL allow-list of submits: its verdict is a parameter.
- Scheduling of sweeper, purge and rate refresh: their passes are events at arbitrary times.
- The HTTP runner, record normalisation and the aggregation of percentages in the evaluation script, and the data set scripts.
- Python's rounding of binary floating point in limiter, letterbox and scores.
