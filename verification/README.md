# MultiAV: model and proofs

MultiAV accepts file uploads, stores them in a bucket, scans each file with
several antivirus engines in parallel, and aggregates their answers into one
verdict. This project models its stateful and arithmetic cores in Dafny and
proves what they promise. `dafny verify dfyconfig.toml` checks all of it.

## Overview

| modules | what they model |
|---|---|
| `Storage`, `EvictionProperties` | the bucket cleanup: a paged scan, delete queues flushed in the middle of loops, oldest-first eviction, and the guarded upload that triggers it |
| `Dispatcher`, `Tasks`, `ScanProtocol`, `ScanSafety`, `ScanOutcomes`, `StatusVerdict`, `FailedJobs` | a scan job: the database transactions, one engine's task with its retry loop, and the protocol in which a coordinator and one task per engine interleave arbitrarily while writes fail |
| `Voting`, `Confidence`, `Severity`, `Summary`, `Families`, `Normalize`, `Registry`, `Results`, `Payloads` | the aggregation of engine results, from the payload an engine reports to the summary of the job |
| `RateLimit`, `Upload` | the daily quota in Redis with a fallback in memory, and the upload handler with its result cache |
| `AdminUsers`, `Base64Url`, `AdminToken` | the admin accounts, the session token and its text coding |
| `Migrations`, `MigrationProperties` | the start-up migration over tables, columns, indexes and foreign keys |
| `Sequences`, `Strings` | sums, filters, stable sorting and the string operations the others use |

Code that changes state is modelled in classes (`Bucket`, `StorageService`,
`JobStore`, `EngineRecord`, `RateLimiter`, `UploadDesk`, `AdminTable`,
`Database`) and loops; each such method is proved equal to a function of the
state before it. The theorems are about those functions, over every listing,
every history and every interleaving.

Assumptions, all of them visible as parameters or in `requires` clauses:

- A request to the API, and a database transaction, is atomic. The engine
  tasks, the callback and the error handler interleave between transactions.
- Each task is delivered once. Writes of result rows may fail wherever the
  program expects it; a status write of an existing job lands.
- The bucket lists every object once, in any order and with any page
  boundaries; keys are distinct. Any delete request, or any key of one, may be
  refused.
- Ratios, weights and scores are real numbers.
- In the theorems on the result cache the clock is ahead of all earlier jobs of
  the same file and key, and failed jobs stay failed; both are shown to be needed.
- JSON reading undoes JSON writing, and reading an id undoes writing it. The
  keyed hash is an arbitrary function.

What the proofs show about the code, beyond what it promises:

- Turning one engine's answer from suspicious to malicious can lower the
  verdict. `Voting.SuspiciousToMaliciousLowers` says exactly when.
- A job can be closed as `done` although an engine left no trace, when the only
  unretried write of a disabled engine is lost (`ScanOutcomes.DoneCanHideAnEngine`).
- Status and verdict can disagree, because a payload can be stored as a success
  that never votes. `Tasks.StoredRowIsFaithful` says exactly which: one that is
  taken for a success although its own status does not say ok, such as a payload
  with neither status nor error, or with the status "success" or a padded "ok".
  `StatusVerdict.StatusVerdictAgreement` says when a whole job is affected; a
  real verdict never comes with the status `error`.
- A failed job can become `done` after all (`FailedJobs.FailedJobCanTurnDone`):
  exactly when it is finalized on rows that all succeeded
  (`FailedJobs.FailedJobRevivedExactly`), for which an engine's result and the
  report of that must both have been lost. Then the upload cache can be left with
  two live jobs of one file (`Upload.RevivedJobIsASecondLiveOne`).
- A job that ends by a dispatch error leaves its usage row at `queued` for good
  (`ScanOutcomes.UsageFollowsFinalize`).
- The branch for "no engines configured" is dead: with nothing enabled all known
  engines run (`Registry.ActiveEnginesMeaning`).
- A strictly newest upload survives its own cleanup exactly when it fits beside
  the bytes of objects that carry no usable date, which are counted but never
  evicted (`EvictionProperties.NewestSurvives`).
- With Redis failing in between, one process can accept more than the daily
  limit, up to twice as much, which is reached (`RateLimit.TwiceTheLimitIsReached`).
  `RateLimit.AcceptanceLessWaste` says how many it accepts on any day; when every
  attempt counts on one backend alone, the limit is exceeded exactly when there
  are more attempts than that and some counted on each
  (`RateLimit.LimitExceededExactly`).
- A failed job that is newer than every live one, or as new, hides the live ones
  from the result cache, and only that does
  (`Upload.CacheMissesExactlyWhenOvershadowed`). A clock that does not advance
  gets there (`Upload.SlowClockMissesTheCache`).
- Once no active superadmin exists, the admin API can never change an account
  again (`AdminUsers.LockedOutForGood`); no sequence of requests leads there.
- An index of the same name elsewhere is the only thing that keeps a wanted index
  out (`MigrationProperties.IndexesAfterMigration`), and on Postgres a run stops
  when a table that a new foreign key needs is missing
  (`MigrationProperties.MigrationSucceeds`).

## Model

| member | source | states |
|---|---|---|
| `Storage.StorageService.DeleteObjects` | app/services/storage.py:303-312 | issues exactly the requests `Chunks(keys)`, slice by slice, whether or not earlier ones are refused, and the bucket follows |
| `Storage.StorageService.Flush` | app/services/storage.py:279-281 | sending a queue after whole requests yields the same cut as sending everything at once |
| `Storage.StorageService.Enqueue` | app/services/storage.py:272-275 | appends a key and, when the queue is full, sends and clears it; what was sent plus what is queued never changes otherwise |
| `Storage.StorageService.ScanPages` | app/services/storage.py:254-281 | however the listing is cut into pages, the totals, the candidates and the expired keys are those of the whole listing, and the requests are its expired keys cut by a thousand |
| `Storage.ScanMeaning` | app/services/storage.py:254-277 | the running totals and lists of the scan equal sums and filters over everything seen |
| `Storage.StorageService.EvictOldest` | app/services/storage.py:283-297 | the early-exit loop with its mid-loop flushes requests exactly the first `VictimCount` candidates |
| `Storage.StorageService.CleanupBucket` | app/services/storage.py:241-301 | a cleanup issues exactly the planned requests for some complete listing and leaves the bucket they lead to; nothing on local storage |
| `Storage.StorageService.SaveFile` | app/services/storage.py:111-157 | refuses a file over the cap without touching the bucket; otherwise stores it under its digest and then runs one cleanup |
| `Storage.ChunksConcat` | app/services/storage.py:303-305 | cutting is compositional once whole requests were sent |
| `EvictionProperties.ScanDecides` | app/services/storage.py:254-277 | an object with a key and a date is expired from the moment its age reaches the TTL and a candidate for eviction until then; one whose date cannot be read only counts, and one without a key or date not at all |
| `EvictionProperties.RequestsAreFull` | app/services/storage.py:303-305 | every request but the last has exactly 1000 keys, and the last 1 to 1000 |
| `EvictionProperties.DeleteRequestsAreExact` | app/services/storage.py:270-297 | all requests concatenated are the expired keys in listing order and then the victims oldest first; each holds 1 to 1000 keys |
| `EvictionProperties.NoKeyDeletedTwice` | app/services/storage.py:270-312 | no key occurs twice in all the requests of a cleanup |
| `EvictionProperties.VictimCountMeaning` | app/services/storage.py:286-292 | the victim count is the least number of first candidates whose removal makes the rest fit, all of them when none suffices |
| `EvictionProperties.EvictionIsShortestPrefix` | app/services/storage.py:283-297 | the victims are the shortest oldest-first prefix of the unexpired objects: every shorter prefix leaves too much, the rest fits iff the undated bytes alone do, and nothing goes when all fits already |
| `EvictionProperties.EvictionIsOldestFirst` | app/services/storage.py:286-292 | no kept object is older than a victim; both are dated and unexpired |
| `EvictionProperties.EqualTimesKeepListingOrder` | app/services/storage.py:286-288 | candidates with the same time are considered in listing order |
| `EvictionProperties.StoredAfterCalls` | app/services/storage.py:303-312 | whatever requests or single keys the server refuses, an object is left iff it was there and every request that named its key was refused for it |
| `EvictionProperties.NothingExpiredIsLeft` | app/services/storage.py:270-281 | with nothing refused no dated object that reached the TTL is left |
| `EvictionProperties.BucketAfterCleanup` | app/services/storage.py:241-301 | with nothing refused, what is left plus the expired objects plus the victims is the old bucket, and it fits the cap iff the undated bytes alone do |
| `EvictionProperties.NewestSurvives` | app/services/storage.py:284-295 | the strictly newest unexpired object is named in a request iff it does not fit beside the undated bytes; when it fits it is still stored afterwards, whatever is refused |
| `EvictionProperties.AcceptedUploadSurvives` | app/services/storage.py:129-142 | an upload the size guard accepts survives the cleanup it triggers when it is strictly newest, unexpired and everything counted is dated |
| `Results.WeightMeaning` | app/services/aggregator/confidence.py:8-15 | letter case does not matter; a positive configured weight is used and anything else gives the default |
| `Results.ResultMeaning` | app/services/aggregator/voting.py:15-24 | status and verdict in any letter case, the verdict before the detection, the engine key before the engine |
| `Payloads.NumbersMeaning` | app/services/aggregator/confidence.py:39 | how a number field is read, numeric text included, and on what reading it raises |
| `Payloads.FalsyValues` | app/services/aggregator/voting.py:15-24 | which values are falsy |
| `Strings.StripMeaning` | app/services/aggregator/summary.py:60 | stripping cuts the blanks at both ends and nothing else |
| `Strings.LowerMeaning` | app/services/aggregator/summary.py:60 | lowering turns capitals into small letters and leaves the rest |
| `Voting.TallyVotes` | app/services/aggregator/voting.py:11-33 | the loop's tallies are sums of per-result shares: full weight by vote, half for an unknown vote, errors apart |
| `Voting.TalliesByVote` | app/services/aggregator/voting.py:14-33 | the tallies are the total weights of the results by vote, with half the weight of unknown votes added to suspicious |
| `Voting.WeightedVerdict` | app/services/aggregator/voting.py:6-50 | the loop and the cascade give the verdict of the four sums |
| `Voting.CascadeRegions` | app/services/aggregator/voting.py:35-50 | the cascade equals a closed-form partition of the votes, with the denominators cleared |
| `Voting.VerdictKinds` | app/services/aggregator/voting.py:35-37 | malicious, suspicious or clean iff some result is ok; error iff there are results and none is ok; unknown iff there are none |
| `Voting.CleanToMaliciousNeverLowers` | app/services/aggregator/voting.py:26-50 | turning any one ok result from clean to malicious never lowers the verdict |
| `Voting.CleanToSuspiciousNeverClears` | app/services/aggregator/voting.py:26-50 | turning one from clean to suspicious never makes a verdict clean that was not |
| `Voting.SuspiciousToMaliciousLowers` | app/services/aggregator/voting.py:43-50 | the verdict drops from suspicious to malicious votes iff suspicion alone carried it and neither share reaches its threshold any more |
| `Voting.SuspiciousToMaliciousExample` | app/services/aggregator/voting.py:43-50 | three engines weighted .3, .2 and .5 of which two say suspicious and one clean: suspicious, and clean once the first says malicious |
| `Voting.StrongMaliceIsNeverClean` | app/services/aggregator/voting.py:43-50 | a malicious share of 0.35 or more is never clean |
| `Voting.FailureKeepsVerdict` | app/services/aggregator/voting.py:17-20 | inserting a failed result anywhere keeps the verdict iff the list is not empty |
| `Voting.VerdictPermutation` | app/services/aggregator/voting.py:6-50 | the verdict does not depend on the order of the results |
| `Confidence.AccumulateTotals` | app/services/aggregator/confidence.py:24-51 | the loop's four totals are the sums of the per-result shares |
| `Confidence.WeightedConfidence` | app/services/aggregator/confidence.py:18-65 | the result is the clamped product of average, alignment and penalty of those sums, zero without weight; confidences may be numbers or numeric text |
| `Confidence.SupportByVote` | app/services/aggregator/confidence.py:46-51 | the support of suspicious is the weight voting for it, six tenths of that voting malicious and four tenths of that voting clean; of any other verdict the weight voting for it |
| `Confidence.EqualConfidences` | app/services/aggregator/confidence.py:39-40 | equal confidences add up to that share of the weight that did not fail |
| `Confidence.ConfidenceValue` | app/services/aggregator/confidence.py:53-65 | the value for normalized results with the denominators cleared, in terms of weight, failed weight, confidences and support, with the billionth that guards the divisions |
| `Confidence.ConfidenceIsAShare` | app/services/aggregator/confidence.py:64-65 | whatever the results hold, the confidence lies in [0,1] |
| `Confidence.SplitJobIsHalfSure` | app/services/aggregator/confidence.py:46-65 | one engine of weight .4 sure of malice and two of .3 sure of none make a suspicious job .48 sure |
| `Confidence.ConfidenceNeedsNoClamp` | app/services/aggregator/confidence.py:53-65 | for ok confidences in [0,1] the penalty stays at one half or more, the product is in [0,1] and at most (1-e)(1-e/2) for failed share e, so floor and clamp never act |
| `Confidence.FailureNeverRaisesConfidence` | app/services/aggregator/confidence.py:34-37 | inserting a failed result anywhere never raises the confidence, whatever the confidences are |
| `Confidence.ConfidencePermutation` | app/services/aggregator/confidence.py:18-65 | the confidence does not depend on the order of the results |
| `Severity.ClosestFromNearest` | app/services/aggregator/summary.py:15-16 | the scan over the labels finds the nearest one, the first among equally near |
| `Severity.ClosestLabelBands` | app/services/aggregator/summary.py:15-16 | the nearest label in closed form: the bands end at the midpoints, which go to the lower label |
| `Severity.ScoreTable` | app/services/aggregator/normalize.py:9-16 | the score of each level, whose nearest label is that level |
| `Severity.ComputeSeverity` | app/services/aggregator/summary.py:27-44 | the loop gives the weighted mean of the ok scores with its nearest label, informational without ok results |
| `Severity.EqualSeverities` | app/services/aggregator/summary.py:27-44 | when all ok results have one score the severity is that score with its nearest label; without ok results it is informational |
| `Severity.TwoSeverities` | app/services/aggregator/summary.py:34-43 | two ok results weigh in by the trust in their engines |
| `Severity.FailureKeepsSeverity` | app/services/aggregator/summary.py:31-33 | inserting a failed result changes neither label nor score |
| `Severity.SeverityPermutation` | app/services/aggregator/summary.py:27-44 | severity does not depend on the order of the results |
| `Summary.EngineRecord.Serialize` | app/services/aggregator/summary.py:47-73 | the in-place update returns the serialised payload and stores it in the row, except that an empty payload is not stored back |
| `Summary.SerializeIdempotent` | app/services/aggregator/summary.py:47-73 | serialising a serialised payload changes nothing |
| `Summary.ReserializeStored` | app/services/aggregator/summary.py:47-73 | serialising a row again after it was mutated gives the same payload |
| `Summary.SerializeAll` | app/services/aggregator/summary.py:78 | every record is serialised once, in order, and only the records change |
| `Summary.SerializedMeaning` | app/services/aggregator/summary.py:48-56 | the serialised payload names the row's engine, keeps what the payload says and fills in engine, status, detection and confidence where it says nothing |
| `Summary.SerializedSeverity` | app/services/aggregator/summary.py:58-70 | the severity is a level, and the score the one the payload gives or else the level's |
| `Summary.NormalSeverityMeaning` | app/services/aggregator/summary.py:58-63 | a level in any letter case and padded with blanks is that level, anything else informational |
| `Summary.SerializedKeepsOthers` | app/services/aggregator/summary.py:47-73 | every other field is untouched |
| `Summary.NamelessRow` | app/services/aggregator/summary.py:49-53 | a row without an engine goes by the engine its payload names |
| `Summary.SignatureMeaning` | app/services/aggregator/family_detection.py:29-33 | detection sees the engine and the signature the payload names |
| `Summary.RowAfterMeaning` | app/services/aggregator/summary.py:48 | only the payload of the row changes, and an empty one is not stored back |
| `Summary.SummaryMeaning` | app/services/aggregator/summary.py:82-106 | a job without rows is pending with the lowest severity; any other has the verdict, the severity and the confidence of its rows |
| `Summary.SummarizeJob` | app/services/aggregator/summary.py:76-129 | for rows on which nothing raises: pending without rows, else verdict, severity and confidence of the serialised rows, with the families and signatures detection finds in them and the payloads by engine; the rows are left as serialisation rewrote them |
| `Summary.DetailsMeaning` | app/services/aggregator/summary.py:109 | the details hold exactly the engines the payloads name, each with the last payload that names it |
| `Summary.SummaryPermutation` | app/services/aggregator/summary.py:101-106 | verdict, severity and confidence do not depend on the row order |
| `Summary.ResummaryAgrees` | app/services/orchestrator/dispatcher.py:180-192 | summarising the mutated rows later, in any order, reproduces the first summary |
| `Summary.FailedEngineOnlyCostsConfidence` | app/services/aggregator/summary.py:104-106 | with some ok result, one more failed engine leaves verdict, label and score as they are and never raises the confidence |
| `Families.JoinOfSplit` | app/services/aggregator/family_detection.py:6-7 | the pieces joined with the delimiters they were cut at give the text back, one delimiter between neighbours |
| `Families.SplitOfJoin` | app/services/aggregator/family_detection.py:6-7 | splitting recovers any pieces without delimiters from the text that joins them |
| `Families.TokensMeaning` | app/services/aggregator/family_detection.py:6-7 | the tokens are the non-empty pieces of such a cut: they concatenate to the signature without its delimiters, and none is empty or holds a delimiter |
| `Families.DelimitersCut` | app/services/aggregator/family_detection.py:6-18 | two pieces around one of the five delimiters are family and category; around any other character they are one family |
| `Families.HintsAreTokens` | app/services/aggregator/family_detection.py:15-18 | the family is the first token and the category the second |
| `Families.HintsMeaning` | app/services/aggregator/family_detection.py:35-42 | the counted families and categories are the first and second tokens of the signatures in listing order |
| `Families.KeptSignatures` | app/services/aggregator/family_detection.py:29-33 | every signature that is not empty is kept, with tokens or without |
| `Families.MostCommon` | app/services/aggregator/family_detection.py:44 | the first-seen family among those of maximal count |
| `Families.DetectFamilies` | app/services/aggregator/family_detection.py:21-51 | counts every first token, lists second tokens once in first-seen order, keeps the signatures in order, and names the primary family |
| `Families.FirstSeenMeaning` | app/services/aggregator/family_detection.py:40-42 | the deduplicated list has exactly the members of the list, each once |
| `Families.FirstSeenPrefix` | app/services/aggregator/family_detection.py:40-42 | every element stands where it first occurred: a prefix of the list deduplicates to a prefix |
| `Families.FamilyCountsConserve` | app/services/aggregator/family_detection.py:33-37 | the family counts add up to the number of signatures with a token |
| `Families.FamilyListIsSortedKeys` | app/services/aggregator/family_detection.py:48 | the family list is sorted, without repetition, and holds exactly the counted families |
| `Families.TextLeqMeaning` | app/services/aggregator/family_detection.py:48 | the order of that list: a prefix first, and otherwise by the first character that differs |
| `Normalize.NormalizedNumbers` | app/services/aggregator/normalize.py:46-123 | a normalized payload has a confidence in [0,1], a known severity and the score of that severity |
| `Normalize.NormalizedVotes` | app/services/aggregator/normalize.py:62-123 | a normalized payload votes iff it carries no error and its status was not error; then its vote is a known verdict, otherwise status and verdict both say error |
| `Normalize.NormalizedStatus` | app/services/aggregator/normalize.py:86-94 | a report is an error iff it carries one or has that status in any letter case; its verdict is then error |
| `Normalize.NormalizedVerdict` | app/services/aggregator/normalize.py:95-99 | the vote of an ok payload is the known verdict the report gives in any letter case, and otherwise malicious for a detection and clean for none |
| `Normalize.NormalizedScales` | app/services/aggregator/normalize.py:46-59 | a known severity in any letter case is kept and any other is informational; the confidence is cut to [0,1], zero when unreadable |
| `Normalize.NormalizedTexts` | app/services/aggregator/normalize.py:101-119 | signature, family, category and error are passed on |
| `Registry.GetActiveEngines` | app/services/orchestrator/registry.py:134-158 | the loop builds the registry of the configuration, or all known engines when nothing is enabled or readable |
| `Registry.EnabledMeaning` | app/services/orchestrator/registry.py:78-111 | what switches a known engine on; without a setting it is on |
| `Registry.UnknownEngines` | app/services/orchestrator/registry.py:105-107 | nothing but the three engines is configured |
| `Registry.SettingsMeaning` | app/services/orchestrator/registry.py:88-114 | a positive timeout or weight is used; 120 seconds and .15 stand in otherwise |
| `Registry.DefaultsMeaning` | app/services/orchestrator/registry.py:123-158 | the three engines with their defaults run when nothing is readable or enabled, else the configured ones |
| `Registry.ConfiguredMeaning` | app/services/orchestrator/registry.py:148-153 | an engine is configured iff some entry of its name, in any letter case, enables it |
| `Registry.LastEnabledWins` | app/services/orchestrator/registry.py:148-153 | a configured engine has the settings of the last enabled entry of its name, in any letter case |
| `Registry.ActiveEnginesMeaning` | app/services/orchestrator/registry.py:88-158 | there is always an engine to run, all are known, and timeouts and weights are positive |
| `Dispatcher.JobStore.MarkJobStatus` | app/services/orchestrator/dispatcher.py:33-55 | sets status and completion time of an existing job, reports a missing one |
| `Dispatcher.JobStore.RecordEngineResult` | app/services/orchestrator/dispatcher.py:58-114 | stored iff the payload can be stored, the job exists and the write lands; then one row per engine with the defaults filled in, else nothing changes |
| `Dispatcher.JobStore.RecordDispatchError` | app/services/orchestrator/dispatcher.py:117-121 | two transactions: an Orchestrator error row if its write lands, and the status error in any case; the usage row is not touched |
| `Dispatcher.JobStore.FinalizeJobSummary` | app/services/orchestrator/dispatcher.py:152-196 | a missing job is reported; rows on which some part of the summary raises make it raise and nothing is committed; otherwise the job is closed with the status of its rows, the rows serialised in place, and the usage row of its key with the verdict |
| `Dispatcher.CloseStatus` | app/services/orchestrator/dispatcher.py:166-177 | error without a success row, done when all succeeded, done_with_errors in between |
| `Dispatcher.FindUpsert` | app/services/orchestrator/dispatcher.py:80-105 | after storing a row its engine has that row and every other engine the one it had |
| `Dispatcher.StoredPayloadMeaning` | app/services/orchestrator/dispatcher.py:70-72 | the payload is kept and engine and status filled in where it has none; a truthy payload that is no dictionary raises |
| `Dispatcher.RecordedMeaning` | app/services/orchestrator/dispatcher.py:74-108 | storing a result gives its engine that row and leaves every other row, the job and the usage as they were |
| `Dispatcher.MarkedMeaning` | app/services/orchestrator/dispatcher.py:47-51 | sets the status, the completion time only when given, and nothing else |
| `Dispatcher.DispatchErrorMeaning` | app/services/orchestrator/dispatcher.py:120 | the orchestrator's row has the status error and the message |
| `Dispatcher.FinalStatusMeaning` | app/services/orchestrator/dispatcher.py:166-177 | when each of the three closing statuses is given, by the statuses of the rows |
| `Dispatcher.FinalizedMeaning` | app/services/orchestrator/dispatcher.py:179-191 | the job is closed at that instant with the status of its rows, and the usage row of a job with a key gets status and verdict |
| `Dispatcher.UpsertUnique` | app/services/orchestrator/dispatcher.py:59 | there stays at most one row per engine |
| `Tasks.Persist` | app/workers/tasks.py:90-116 | stored iff one of three attempts lands on a storable payload of an existing job; otherwise the database is unchanged |
| `Tasks.TaskStatusMeaning` | app/workers/tasks.py:22-39 | which words mean an error, a timeout and a success, and that a reported error decides when there is none of them |
| `Tasks.RaisedMeaning` | app/workers/tasks.py:71-88 | status and payload of each exception branch |
| `Tasks.AfterPersistMeaning` | app/workers/tasks.py:90-119 | an engine's result leaves its own row when an attempt lands, and otherwise a failed job with the orchestrator's row if that lands |
| `Tasks.RunEngineTask` | app/workers/tasks.py:42-128 | the whole effect of one task: a disabled engine writes once without retry, a missing file is a dispatch error, and three failed attempts end in a dispatch error |
| `Tasks.StoredRowIsFaithful` | app/workers/tasks.py:22-39 | for every payload that can be stored: a row that votes is a success, and the row is a success exactly when it votes iff the payload is sincere, that is, stored as a success only if its own status says ok |
| `Tasks.ReportsAreSincere` | app/workers/tasks.py:63-70 | normalized reports are sincere |
| `Tasks.RaisedOutcomesAreSincere` | app/workers/tasks.py:71-88 | outcomes of the exception branches are sincere |
| `Tasks.StoredRowIsReadable` | app/services/aggregator/summary.py:47-109 | no part of the summary raises on the row of an outcome iff the payload's status and signature are text or falsy, its engine and severity no containers, and, if it says ok, its verdict is text or falsy and its confidence a number or numeric text |
| `Tasks.ReportsArePresentable` | app/services/aggregator/normalize.py:62-123 | normalized reports can be read |
| `Tasks.SincereExamples` | app/workers/tasks.py:22-39 | a detection without a status, the status success and a padded ok are stored as successes and never vote; a reported error without a status and an upper-case OK are sincere |
| `ScanProtocol.StepDecreases` | app/workers/tasks.py:92-119 | every event uses up work: outstanding phases and remaining persistence attempts |
| `ScanProtocol.RunsAreBounded` | app/workers/tasks.py:131-193 | no run is longer than the work it starts with |
| `ScanProtocol.StartMeaning` | app/workers/tasks.py:164-168 | starting marks a stored job as running; for a missing one no task starts and the error is reported |
| `ScanProtocol.EnqueueMeaning` | app/workers/tasks.py:187-193 | enqueuing dispatches every task; when it fails only the tasks already sent can run |
| `ScanProtocol.ReportingMeaning` | app/services/orchestrator/dispatcher.py:117-121 | whatever breaks down, a row of the orchestrator is stored and then the job marked as failed and completed |
| `ScanProtocol.FinalizeMeaning` | app/workers/tasks.py:143-158 | finalize waits for all tasks, closes a stored job and reports a missing one |
| `ScanProtocol.ShortTasks` | app/workers/tasks.py:48-61 | a disabled engine writes one error row and ends whether it lands or not; a missing file is reported |
| `ScanSafety.StepKeepsInv` | app/workers/tasks.py:42-193 | every transaction of every task, of the scan, its callback and its error handler keeps the protocol invariant |
| `ScanSafety.RunKeepsInv` | app/workers/tasks.py:42-193 | the invariant holds after every interleaving |
| `ScanSafety.TaskAloneMatchesLoop` | app/workers/tasks.py:90-119 | the protocol's steps of one undisturbed task have the effect proved of the retry loop |
| `ScanOutcomes.TerminalMeansCompleted` | app/services/orchestrator/dispatcher.py:47-51 | in every reachable state a terminal status comes with a completion time |
| `ScanOutcomes.Progress` | app/workers/tasks.py:131-193 | until coordinator and tasks have ended some event other than a failing fan-in can happen: in the fan-out a task moves while one is unfinished, and then finalize fires, or raises when it cannot read the rows |
| `ScanOutcomes.EveryRunTerminates` | app/workers/tasks.py:131-193 | a run has at most 6 steps an engine and 5 more, and one that can go on at most by a failing fan-in has left the stored job terminal and completed |
| `ScanOutcomes.FanInCompletes` | app/workers/tasks.py:143-193 | when nothing breaks down and the rows can be read, a run that can only go on by breaking down was finalized: all engine tasks finished, and the status is that of the rows |
| `StatusVerdict.PresentableRunsFinalize` | app/workers/tasks.py:143-158 | with readable payloads alone, as normalized reports are, every run that nothing breaks ends finalized |
| `ScanOutcomes.TerminalIsStable` | app/services/orchestrator/dispatcher.py:170-179 | a terminal status never gives way to a running one |
| `ScanOutcomes.OrchestratorRowRulesOutDone` | app/services/orchestrator/dispatcher.py:117-121 | once an Orchestrator row is stored, no continuation shows the job as done |
| `ScanOutcomes.DoneExactlyWhenAllSucceeded` | app/services/orchestrator/dispatcher.py:166-177 | after finalize: every engine has a success row and the Orchestrator none iff the status is done and no outcome was lost |
| `ScanOutcomes.DoneIffAllSucceeded` | app/services/orchestrator/dispatcher.py:166-177 | with every unretried write landing, done iff every engine has a success row and no dispatch error was stored |
| `ScanOutcomes.DoneCanHideAnEngine` | app/workers/tasks.py:48-52 | the proviso is needed: a run with one clean report whose other, disabled engine loses its only write ends as done |
| `StatusVerdict.StatusVerdictAgreement` | app/services/orchestrator/dispatcher.py:166-180 | in every interleaving and for payloads of every kind, status and verdict of a finalized job disagree on failure iff some row is stored as a success and no stored payload says ok |
| `StatusVerdict.RealVerdictRulesOutError` | app/services/orchestrator/dispatcher.py:166-180 | for payloads of every kind a real verdict means done or done_with_errors |
| `StatusVerdict.StatusAndVerdictAgree` | app/services/orchestrator/dispatcher.py:166-180 | when every payload handed back is sincere: status error iff verdict error, done or done_with_errors iff a real verdict |
| `ScanOutcomes.UsageFollowsFinalize` | app/services/orchestrator/dispatcher.py:180-192 | after finalize the usage row shows the closing status and the verdict that the mutated rows give again in any order; otherwise it stays queued |
| `FailedJobs.OnlyFinalizeRevives` | app/services/orchestrator/dispatcher.py:166-177 | the one step after which a failed job is no longer failed is finalize on rows that all succeeded |
| `FailedJobs.FailedJobRevivedExactly` | app/services/orchestrator/dispatcher.py:166-177 | in every interleaving and every continuation a failed job is no longer failed iff it was finalized on rows that all succeeded; then the outcome of some engine was lost |
| `FailedJobs.FailedJobsStayFailed` | app/services/orchestrator/dispatcher.py:117-121 | in every interleaving and every continuation a failed job is failed later too, unless the outcome of some engine was lost |
| `FailedJobs.ScanMovesAreAdmissible` | app/api/v1/scan.py:52 | with every unretried write landing, what a scan does to its job is a move that the upload theorems admit |
| `FailedJobs.FailedJobCanTurnDone` | app/workers/tasks.py:118-119 | the proviso is needed: a run in which a report is lost sets the status error and is then closed as done |
| `FailedJobs.ScansStartFromUploads` | app/api/v1/scan.py:81-109 | a scan starts from the job an upload leaves: pending, not completed, its usage row queued iff it has a key |
| `RateLimit.RateLimiter.CheckRateLimit` | app/core/rate_limit.py:99-144 | counts the attempt on the backend that answers, allows it iff its count is within the limit, and counts nothing without a key, a positive limit or consumption |
| `RateLimit.RateLimiter.CountInRedis` | app/core/rate_limit.py:130-137 | the count after the call, or none when it raised: a failed increment leaves Redis as it was, while a lost reply or a failed expiry still counts there without a deadline |
| `RateLimit.RemainingPredictsNext` | app/core/rate_limit.py:47-96 | something remains iff the next consuming check on the same backend is allowed |
| `RateLimit.RemainingIsExact` | app/core/rate_limit.py:47-96 | what remains is exactly how many more attempts the backend accepts |
| `RateLimit.UnlimitedKeys` | app/core/rate_limit.py:108-110 | a key without a positive limit is neither limited nor counted |
| `RateLimit.DayMeaning` | app/core/rate_limit.py:35-40 | days are UTC days of 86400 seconds, and the retry time is the whole seconds left of one |
| `RateLimit.TtlCoversDay` | app/core/rate_limit.py:35-40 | a counter set at any instant outlives its day by more than 59 seconds and at most a minute |
| `RateLimit.DeadlineMeaning` | app/core/rate_limit.py:131-134 | the first increment sets the deadline unless its reply or the setting is lost; later ones leave it alone |
| `RateLimit.CountersExpire` | app/core/rate_limit.py:134 | a counter counts until its deadline and is gone from then on |
| `RateLimit.OwnSlotStep` | app/core/rate_limit.py:119-144 | each attempt counts on one backend or both, is judged by that count, and never lets the counter expire within the day |
| `RateLimit.TrafficBounds` | app/core/rate_limit.py:112-144 | over any traffic each backend accepted at most min(count, limit), and the first `limit` attempts pass |
| `RateLimit.AcceptanceLessWaste` | app/core/rate_limit.py:112-144 | over any day of traffic the accepted attempts are what each backend counted, capped at the limit, less the counts Redis made within the limit for attempts that memory then judged |
| `RateLimit.AcceptanceIsExact` | app/core/rate_limit.py:119-144 | when every attempt counts in memory or in Redis alone, the two counters add up to the attempts and each backend accepts exactly what it counted, capped at the limit |
| `RateLimit.LimitExceededExactly` | app/core/rate_limit.py:130-144 | such a day exceeds the limit iff it has more attempts than that and some of them counted on each backend |
| `RateLimit.OneBackendIsExact` | app/core/rate_limit.py:119-139 | a single backend accepts exactly min(limit, attempts) in a day |
| `RateLimit.AtMostTwiceTheLimit` | app/core/rate_limit.py:130-144 | with any mixture of Redis failures at least min(limit, attempts) and at most 2*limit |
| `RateLimit.TwiceTheLimitIsReached` | app/core/rate_limit.py:130-144 | for every limit there is a day of traffic that reaches 2*limit |
| `Upload.UploadDesk.UploadFile` | app/api/v1/scan.py:21-114 | one request: cached reply, quota, size guard, and the new file, job and usage rows |
| `Upload.UploadDesk.FindLatest` | app/api/v1/scan.py:44-49 | the newest job of the same file and key |
| `Upload.RunKeepsOrder` | app/api/v1/scan.py:35-63 | over every history with an advancing clock in which failed jobs stay failed, all but the newest job of a file and key have failed, and every job has its file and usage row |
| `Upload.AtMostOneLiveJob` | app/api/v1/scan.py:44-63 | over the same histories each file has at most one unfailed job per key, anonymous uploads included |
| `Upload.CachedRepliesAreFree` | app/api/v1/scan.py:51-61 | a reply is cached iff an unfailed job of the same file and key exists; it names that job and consumes nothing |
| `Upload.QueuedMeaning` | app/api/v1/scan.py:69-114 | an accepted upload adds one pending job, the usage row of its key and the file if it is new |
| `Upload.RefusedMeaning` | app/api/v1/scan.py:63-67 | the quota answers first and the size second; either way the attempt counts and no job is left |
| `Upload.FileNames` | app/api/v1/scan.py:37-42 | a new file takes the name it comes with, a known one without a name is given it, and no other name changes |
| `Upload.JobsStayWithinQuota` | app/api/v1/scan.py:63-109 | jobs created for a key in a day never exceed its limit with one backend, and never twice the limit |
| `Upload.CacheMissesExactlyWhenOvershadowed` | app/api/v1/scan.py:49-61 | in any store a live job of the file and key is overlooked iff a failed one goes before all live ones: newer, or as new and created earlier |
| `Upload.SlowClockMissesTheCache` | app/api/v1/scan.py:49-61 | the advancing clock is needed: after a failed scan an upload stamped at the same instant or earlier is overlooked by the next one, which starts a second live job |
| `Upload.RevivedJobIsASecondLiveOne` | app/api/v1/scan.py:51-61 | that failed jobs stay failed is needed: a history in which one is done after all has two live jobs of one file |
| `AdminUsers.AdminTable.CreateAdminUser` | app/api/v1/admin_users.py:110-129 | the whole effect of a creation, with every refusal in the order of the checks |
| `AdminUsers.AdminTable.ChangeCopy` | app/api/v1/admin_users.py:141-174 | the checks and assignments of an update give the staged specification |
| `AdminUsers.AdminTable.UpdateAdminUser` | app/api/v1/admin_users.py:132-179 | the whole effect of an update; a refusal leaves the table as it was |
| `AdminUsers.AdminTable.DeleteAdminUser` | app/api/v1/admin_users.py:182-204 | the whole effect of a deletion, including the refusal by referring audit rows |
| `AdminUsers.AdmissionMeaning` | app/core/admin_auth.py:174-179 | who gets as far as an operation, and the answers to everyone else |
| `AdminUsers.WellFormedMeaning` | app/api/v1/admin_users.py:30-41 | names and passwords have between one and 255 characters |
| `AdminUsers.CreateAccepted` | app/api/v1/admin_users.py:116-129 | an admitted creation goes through iff the stripped name is free; then there is one active account more with that name, password and role |
| `AdminUsers.UpdateAccepted` | app/api/v1/admin_users.py:143-179 | an admitted update goes through iff it asks for a change, the name is free and, on one's own account, the password is proved, no deactivation is asked for and the last superadmin is not demoted; then the row holds all that was asked |
| `AdminUsers.DeleteAccepted` | app/api/v1/admin_users.py:188-204 | an admitted deletion goes through iff it is not one's own account and no audit row refers to it: the superadmin guard never decides; then the account is gone and all else as before |
| `AdminUsers.GuardStopsOnlySelfDemotion` | app/api/v1/admin_users.py:73-88 | the guard refuses iff the only active superadmin gives up that role with an acceptable name and password |
| `AdminUsers.AcceptedLeavesSuperadmin` | app/api/v1/admin_users.py:83-88 | after any accepted request there is an active superadmin |
| `AdminUsers.RequestsTouchOneAccount` | app/api/v1/admin_users.py:110-204 | a request changes one account at most, never deletes the acting one, and changes its password only with the current one |
| `AdminUsers.RunKeepsSuperadmin` | app/api/v1/admin_users.py:110-204 | over every sequence of requests an active superadmin remains, names stay distinct and audit rows refer to existing accounts |
| `AdminUsers.LockedOutForGood` | app/api/v1/admin_users.py:44-46 | without an active superadmin no sequence of requests changes any account |
| `Base64Url.EncodedText` | app/core/admin_auth.py:43-49 | the text is in the alphabet, has four characters for three bytes rounded up, and adding the computed padding restores the padded text |
| `Base64Url.AlphabetTable` | app/core/admin_auth.py:43-44 | the URL-safe alphabet of section 5 of RFC 4648, and the two characters of the standard one the decoder takes too |
| `Base64Url.TestVectors` | app/core/admin_auth.py:43-44 | the first vectors of section 10 of RFC 4648, unpadded, and one with the two URL-safe characters |
| `Base64Url.DecodeEncode` | app/core/admin_auth.py:43-49 | decoding the stripped text gives back every byte string |
| `Base64Url.EncodeIsInjective` | app/core/admin_auth.py:43-44 | different byte strings have different texts |
| `Base64Url.CanonicalTextsRoundTrip` | app/core/admin_auth.py:43-49 | a text that decodes is the text of its bytes iff it is canonical: of the alphabet alone, of a possible length, and with no bits in its last character beyond the last byte |
| `Base64Url.CanonicalIsBody` | app/core/admin_auth.py:43-44 | every canonical text is the text of some bytes |
| `Base64Url.DecodersAcceptManySpellings` | app/core/admin_auth.py:47-49 | a witness: a canonical text and another one decode to the same byte |
| `AdminToken.SplitAtFirst` | app/core/admin_auth.py:88-91 | splitting at the first separator recovers both parts when the first holds none |
| `AdminToken.SignedPayload` | app/core/admin_auth.py:82-100 | verifying a signed payload comes down to checking its claims |
| `AdminToken.CreateMeaning` | app/core/admin_auth.py:71-84 | a token is made iff the secret has 32 characters and the expiry is a date; its parts decode to the claims and to the signature of the first part |
| `AdminToken.WholeSecondsMeaning` | app/core/admin_auth.py:77-78 | instants are cut to whole seconds toward zero |
| `AdminToken.ClaimsMeaning` | app/core/admin_auth.py:104-120 | a named user with a whole expiry is granted iff that is a date still ahead and the id can be read; otherwise which answer is given |
| `AdminToken.InvalidTokens` | app/core/admin_auth.py:88-109 | no dot, another signature, a payload that is no JSON or names no user or expiry: status 401 |
| `AdminToken.CrashingTokens` | app/core/admin_auth.py:52-60 | a short secret, characters outside ASCII and a signed payload that does not decode, is no text or no object end in an error nothing catches |
| `AdminToken.CreatedTokenVerifies` | app/core/admin_auth.py:71-120 | a created token gives its user until the whole second of its expiry and is expired from then on, less than a second before the stated expiry |
| `AdminToken.GrantedTokensAreSigned` | app/core/admin_auth.py:93-97 | a granted token is the signed form of its payload text |
| `AdminToken.OneTokenPerPayload` | app/core/admin_auth.py:93-97 | at most one token is accepted for a payload text |
| `AdminToken.TimeOnlyEndsTokens` | app/core/admin_auth.py:111-113 | a token granted now was granted at every earlier instant, with the same answer, and stays granted until its expiry and no longer |
| `AdminToken.BearerCarriesToken` | app/core/admin_auth.py:143-151 | the bearer header carries a created token whole, in any letter case of the word, ahead of a cookie |
| `AdminToken.SessionFollowsTable` | app/core/admin_auth.py:139-185 | a created token gives a session iff it has not expired and the account exists and is active, with the role the table holds now |
| `AdminToken.CookieCounts` | app/core/admin_auth.py:143-151 | the cookie counts when the header is empty, names another scheme or has a blank value |
| `AdminToken.CookieSessionFollowsTable` | app/core/admin_auth.py:150-185 | a created token in the cookie gives the session under the same condition as in the header |
| `AdminToken.NoTokenNoSession` | app/core/admin_auth.py:153-154 | without a token there is no session |
| `AdminToken.DeletedAccountsHaveNoSession` | app/core/admin_auth.py:175-179 | once an account was deleted its tokens give no session, in header or cookie |
| `AdminToken.SessionsBelongToOwner` | app/core/admin_auth.py:87-120 | a session whose token carries a payload text made for an account is that account's and no longer than its token |
| `Migrations.Database.AddScanJobsApiKeyId` | app/db/migrations.py:90-110 | adds the column, on Postgres with a foreign key unless there is one, and changes nothing when the key is refused |
| `Migrations.Database.CreateMissingTable` | app/db/migrations.py:135-259 | creates a table with its columns, and on Postgres its foreign keys and index, or nothing when a key is refused |
| `Migrations.Database.AddPerformanceIndexes` | app/db/migrations.py:45-87 | deciding from indexes looked up once has the effect of deciding each index afresh |
| `Migrations.Database.RunMigrations` | app/db/migrations.py:7-42 | deciding from tables looked up once has the effect of meeting the requirements one after the other |
| `MigrationProperties.MigratingTwice` | app/db/migrations.py:7-42 | a second run changes nothing, for every dialect and starting schema, refused runs included |
| `MigrationProperties.NothingIsDropped` | app/db/migrations.py:7-87 | no table, column, index or foreign key is dropped or redefined, even by a refused run |
| `MigrationProperties.TablesAfterMigration` | app/db/migrations.py:12-40 | after a successful run old tables hold exactly their columns and the listed new ones, and exactly three tables may be new |
| `MigrationProperties.NewTables` | app/db/migrations.py:135-259 | the columns of the usage table, the admin table and the audit log where they were missing |
| `MigrationProperties.NewKeys` | app/db/migrations.py:94-107 | on Postgres the new tables and the new column of the jobs refer to keys, jobs and admins |
| `MigrationProperties.NewAdminIndex` | app/db/migrations.py:191 | on Postgres the new admin table has its index on the user name unless that name was taken |
| `MigrationProperties.MigrationSucceeds` | app/db/migrations.py:90-259 | a run succeeds iff the dialect is not Postgres, or every table a new foreign key refers to has an id it can refer to, the new key of the jobs has a free name, and so has the unique constraint of a new usage table |
| `MigrationProperties.IndexesAfterMigration` | app/db/migrations.py:63-87 | after a successful run a wanted index whose table and columns exist is covered iff it was before or its name was free |
| `MigrationProperties.WantedIndexesAfterMigration` | app/db/migrations.py:52-81 | the same for the six wanted indexes by name, table and columns, with any index on the hash serving for files |
| `MigrationProperties.NoIndexElsewhere` | app/db/migrations.py:47-49 | other dialects get no index |

## Left out

- S3, the filesystem, temporary files, SHA-256, bcrypt, the keyed hash and JSON: foreign code, parameters here. A password hash is identified with its password, so what bcrypt does with very long passwords is not modelled.
- The background cleanup timer and its lock (app/services/storage.py:301, 314-334): line 301 drops the timer without cancelling it, so nothing is claimed about how many are alive.
- An exception other than a refused delete inside a cleanup, which abandons it (app/services/storage.py:298); `migrate_local_files` and `ensure_local_copy`.
- Timestamps without a zone, which the cleanup reads as UTC.
- Celery delivery, hard time limits and redelivery: a task is delivered once. The pause between attempts is no step.
- A status write of an existing job that fails, after which the job stays as it was.
- Several jobs at once: a database in the protocol holds one job.
- Redis time: its clock is the service's, and a call executes within 59 seconds.
- Jobs created at the same instant: the order among them is unspecified in SQL; here the one created first is taken.
- Concurrent HTTP requests: each is one transaction, with one reading of the clock.
- SQL dialect differences of the upserts, which are one insert-or-update here.
- Floating-point rounding, NaN, rounding for display and Tehran time; the scan time in a payload is a number.
- Case folding and blanks outside ASCII.
- The texts of error messages that quote a cause or a number of seconds, which are fixed here. The details, durations and raw responses in a normalized report.
- What a crash of finalize reports: it changes nothing, and in the protocol the error handler then runs with a fixed message.
- Start and completion time and the file name in the job summary, which are copied. Of two engine names in the details that Python takes for one key (a truth value and a number), both are kept here.
- Integers too large for a float, on which Python's conversion raises.
- Summaries from the result endpoint and the user interfaces; they call `summarize_job` on the same rows.
- The warm-up and lazy import of engines, the engines themselves, the configuration loader, routing, health checks and both user interfaces.
- The password bypass of development mode and the seeding of the first admin (app/core/admin_auth.py:124-129, 156-172).
- Time stamps of admin accounts and the listing endpoints.
- The SQL of dialects other than Postgres is taken to be accepted.
- Nullability and column types in the migration, and the indexes Postgres names itself for primary keys and the unique user name; a table never has the name of a wanted index.
