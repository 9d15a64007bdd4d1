# Verified models of the ragbot operations scripts

This project models the scripts that run, score and audit the ragbot service, and proves what
they promise or, where a promise fails, exactly when it holds. One module models one script or
one part of it; `dafny verify dfyconfig.toml` checks all of them.

- **The job consumer** (`ChatQueue`, `ChatQueueSafety`, `ChatAsyncWorker`). The Redis stream, its
  consumer group, the result hashes and any number of workers form a step system: events deliver
  entries, move a worker past one call, crash it, re-claim entries from outside, or make a Redis
  call fail before or after it took effect. `Apply` is total, so a run is any list of events. The
  worker's code is the class `World` and the methods over it, which produce such runs.
- **The resumable scorer** (`Decimal`, `ScoreRuns`, `ScoreRunsSteps`, `ScoreRunsSafety`,
  `ScoreRunsRows`, `CaptureScore`). Tasks interleave, one of them at a time records its row under the
  save lock, a kill can fall between any two steps or inside a write, and later runs resume from the
  file. The class `Scorer` holds the state `main` mutates; its methods let other tasks run at every await and are
  proved to make the steps of this system.
- **Ranking metrics** (`RetrievalMetrics`, `RetrievalReport`, `EmbeddingEval`). The discount
  `1/log2(i+2)` is any positive strictly decreasing sequence, square roots are positive numbers
  with a given square.
- **Migration files** (`MigrationFiles`, `MigrationChain`, `MigrationScripts`). A file is its name
  and the lines that assign `revision` and `down_revision`; the class `Versions` is the directory.
- **Numbers in text** (`NumberFormat`, `NumberPattern`). The price printer, the separator stripper of
  the two scorers, the integer reader, and the number pattern of the numeric audit. What the regular
  expressions and `str.lower` know about characters is a parameter.
- **Order statistics** (`StepAudit`, `StepLatency`, `ScoreThreshold`).
- **Aggregations** (`Buckets`, `FeatureCosts`, `CacheAudit`, `SessionLog`, `TierTotals`,
  `TierReplay`, `ReplayPrices`). `Buckets` proves once, for any commutative sum, that keyed folds
  ignore the order of rows and that buckets add up to the whole.
- **Allocation and the configuration gate** (`GoldenSet`, `ConfigGate`).
- `Sorting`, `Sets`, `Text`, `Wrappers` hold stable sorting, set sizes, Python's strings and optional
  values.

Floats and decimals are exact reals. Every lemma switches Dafny's automatic induction off; where a
lemma is inductive, its body says so.

Where code and documentation disagree, the model follows the code:

- `chat_async_worker.py` promises that an entry is acked only after its result hash was written
  (lines 23-25). The error handler drops what its own write raises and the entry is acked all the same:
  `ChatQueueSafety.AckWithoutWrite` is such a run. For a given message the promise fails only if such
  a write did not reach the server (`ChatQueueSafety.AckAfterWrite`), and then it does fail, unless
  something else wrote that result (`ChatQueueSafety.HandlerDecides`).
- `capture_score_model.py` saves after every row so that an aborted run can be resumed. A kill inside
  the write leaves an unreadable file, which the next run treats as empty:
  `ScoreRunsSafety.KillInsideWrite`, and from a fresh start `ScoreRunsSafety.SavedRowLost`.
- `analyze_step_latency.py` documents the nearest rank as `ceil(pct * n) - 1`; the code takes the next
  one up exactly when `pct * n` is whole: `StepLatency.AgainstDocumentedRank`, and
  `StepLatency.MedianOfTwo` for an instance.
- `audit_prompt_cache_utilization.py` describes the potential savings as what a full hit ratio would
  save; the code computes the saving against no caching at all, which is the same if and only if the
  nominal rate was paid: `CacheAudit.SavingsLeft`, and `CacheAudit.SavingsShownWrong` for instances.
- `alembic_dedup_renumber.py` is to make revisions distinct; a planned name in use or a file it fails
  to rewrite leaves a duplicate: `MigrationChain.RenumberedDistinctExactly`.
- `cost_audit.py` prints the difference between what was paid and the tier replay as savings. It can be
  negative, by Haiku sessions as by mandatory Opus ones: `ReplayPrices.HaikuReplayDearer`,
  `ReplayPrices.MixedSessionReplayDearer`; `ReplayPrices.ReplayNoDearerExactly` says for which logs it
  never is.
- nDCG is meant to lie in [0, 1]; a relevant id retrieved twice takes it above 1:
  `RetrievalMetrics.RepeatedIdScoresAboveOne`.
- The price printer's currency mark is a word character, so the numeric audit's pattern does not read the
  last group of a printed price: `NumberPattern.MarkLosesLastGroup`.
- The scaled question distribution exceeds the total asked for at the small totals listed in
  `GoldenSet.Overshoots`; from 50 on it is exact.

## Model

| member | source | states |
|---|---|---|
| ChatQueueSafety.AckFollowsResult | scripts/chat_async_worker.py:319-335 | in every run of any workers with crashes, faults and outside re-claims, an acked entry with a job id had its result written, or its error handler's write dropped, earlier |
| ChatQueueSafety.SwallowedExactly | scripts/chat_async_worker.py:190-204 | in any run the write for a message is noted as dropped exactly if its error handler's own result write raised, in that run or before |
| ChatQueueSafety.AckAfterWrite | scripts/chat_async_worker.py:23-25 | message by message: if no error handler's write for it raised without reaching the server, the documented order holds for each of its acks, written and then acked |
| ChatQueueSafety.HandlerDecides | scripts/chat_async_worker.py:183-204 | an attempt in its error handler, for an entry nothing was written for, ends acked without a write exactly when its own write does not reach the server, whatever other programs do between its calls short of writing that result |
| ChatQueueSafety.AckWithoutWrite | scripts/chat_async_worker.py:190-204 | from a fresh start the graph raises, the handler's write raises, and the entry is acked though nothing was ever written |
| ChatQueueSafety.DoneHashIsOneRun | scripts/chat_async_worker.py:155-175 | whenever a stored hash says done, its answer, citations, chunk count and duration come from one graph run of that job id, though writes merge into what redeliveries and error writes left |
| ChatQueueSafety.ResultWritten | scripts/chat_async_worker.py:165-204 | a result call that reaches the server leaves in the job's hash status "done" with answer, citations, duration and the count of the first non-empty of graded, reranked and retrieved chunks, or status "error" with the first 300 characters of the exception or "malformed_request", and changes no other hash |
| ChatQueueSafety.AnsweredJobSaysDone | scripts/chat_async_worker.py:143-182 | from a fresh start, a job whose graph returns and whose write goes through shows "done" and that answer |
| ChatQueueSafety.OnePlace | scripts/chat_async_worker.py:272-290 | every entry is always exactly one of undelivered, pending for one consumer, or acked |
| ChatQueueSafety.OnlyAckCallsAck | scripts/chat_async_worker.py:319-335 | only an ack call that reaches the server acks, and it acks the entry its worker is on: crashes and failed reads ack nothing |
| ChatQueueSafety.NothingLeftover | scripts/chat_async_worker.py:272-335 | while no read of its own has failed after delivering and nobody re-claims for it, whatever is pending for a running worker is among the entries in its batch |
| ChatQueueSafety.CleanLeave | scripts/chat_async_worker.py:272-290 | a fresh worker that leaves through the stop event, no read having raised, has no pending entry |
| ChatQueueSafety.LeavesOnlyStopped | scripts/chat_async_worker.py:272-290 | in every run, a worker that left its loop had been told to stop |
| ChatQueueSafety.StoppedReadsNothing | scripts/chat_async_worker.py:272-290 | once told to stop a worker reads nothing more, whatever else happens |
| ChatQueueSafety.StepKeeps | scripts/chat_async_worker.py:130-204 | every event keeps the invariant from which the guarantees follow |
| ChatAsyncWorker.World.constructor | scripts/chat_async_worker.py:219-271 | a process starts at the loop head under a consumer name no live process uses |
| ChatAsyncWorker.World.XReadGroup | scripts/chat_async_worker.py:275-290 | a read hands out the next undelivered entries in order, at most the count asked for and fewer only at the end of the stream, all now pending for this worker; one that raises did so before or after |
| ChatAsyncWorker.World.HSet | scripts/chat_async_worker.py:160-175 | one call merges its fields into whatever the result hash then holds and touches nothing else, or raises before or after doing so |
| ChatAsyncWorker.World.XAck | scripts/chat_async_worker.py:319-335 | an ack takes exactly this entry out of the pending list and into the acked ones, and its exception ends the process |
| ChatAsyncWorker.ProcessOne | scripts/chat_async_worker.py:143-204 | afterwards the hash was left showing "done" with the answer of a recorded run of the job, or "error" with its reason, or the handler's write was dropped, and the worker is about to ack |
| ChatAsyncWorker.HandleEntry | scripts/chat_async_worker.py:291-335 | an entry the loop gets past was acked, after it was settled: without a job id, written, or its handler's write dropped |
| ChatAsyncWorker.HandleBatch | scripts/chat_async_worker.py:291-335 | the delivered entries are settled and then acked one by one, all of them unless an exception leaves the function, and then all before the one it left at |
| ChatAsyncWorker.ConsumeChatRequests | scripts/chat_async_worker.py:272-335 | the code's steps are a run of the step system, so the invariant holds whenever it held at the start |
| ScoreRunsSafety.QidInjective | scripts/capture_score_model.py:198-199 | ids of different questions differ, whatever the bots are called |
| ScoreRunsSafety.RecordedAtMostOnce | scripts/capture_score_model.py:142-154 | over any interleaving, kill and resumed run no question id is recorded twice, in file or memory, and done_q is exactly the set of recorded ids |
| ScoreRunsSafety.FileEqualsMemory | scripts/capture_score_model.py:168-179 | outside the lock, and while no save has raised, the rows of the file are the rows in memory |
| ScoreRunsSafety.RowsLostExactly | scripts/capture_score_model.py:168-179 | an event loses rows if and only if it is a kill while the file lags behind rows in memory |
| ScoreRunsSafety.NeverShrinks | scripts/capture_score_model.py:142-154 | over any number of kills and resumed runs the recorded rows only grow, as long as no kill falls between an append and the end of its save |
| ScoreRunsSafety.KillInsideWrite | scripts/capture_score_model.py:168-179 | whenever a task is ready to record its row and the lock is free, taking it, opening the file and being killed loses every row there is |
| ScoreRunsSafety.SavedRowLost | scripts/capture_score_model.py:168-179 | such a state is reached from a fresh start, and the row lost with it was safely on file before |
| ScoreRunsSafety.FinishedRun | scripts/capture_score_model.py:229-238 | the file of a finished run has one row for every selected question whose task did not raise |
| ScoreRunsSafety.FinishedRunComplete | scripts/capture_score_model.py:188-238 | a finished run in which no task raised has exactly one row per selected question, however many kills and runs came before |
| ScoreRunsRows.RowsInTheirDocuments | scripts/capture_score_model.py:188-227 | over any history of runs and kills, every row of a document, on file or in memory, is of a question of that document's bot |
| ScoreRunsRows.FinishedInItsDocument | scripts/capture_score_model.py:229-238 | the document of each selected bot in a finished run's file has exactly one row for each of its questions whose task did not raise, and counts its rows right |
| ScoreRunsSafety.StepKeeps | scripts/capture_score_model.py:142-238 | every event keeps the invariant on documents, index, done set, lock and file |
| CaptureScore.Scorer.constructor | scripts/capture_score_model.py:142-154 | resuming rebuilds the index and the done set from the file, and nothing from an unreadable one; it is the step system's launch |
| CaptureScore.Scorer.OpenBot | scripts/capture_score_model.py:229-234 | a bot's document is found, or appended empty, no row changes, and one task per question waits |
| CaptureScore.Scorer.RecomputeAvgs | scripts/capture_score_model.py:181-186 | the row count of every document becomes its number of rows |
| CaptureScore.Scorer.Record | scripts/capture_score_model.py:225-227 | one row joins the document of its bot, last, and no other document changes; its id joins the done set and occurs once, every row count is right, and the file becomes memory unless the write fails; these are the step system's steps |
| CaptureScore.Scorer.One | scripts/capture_score_model.py:191-227 | whatever the other tasks do at its awaits, the question ends up recorded exactly once, or its task raised and it is not recorded |
| CaptureScore.Scorer.Finish | scripts/capture_score_model.py:236-238 | after the last save the file is memory, with one row for every selected question whose task did not raise and none for the others |
| RetrievalMetrics.DcgAtK | scripts/eval_retrieval_hit_at_k.py:153-170 | the loop sums the discounts of the relevant positions of the top k |
| RetrievalMetrics.ReciprocalRank | scripts/eval_retrieval_hit_at_k.py:193-204 | one over the position of the first relevant id, 0 if there is none |
| RetrievalMetrics.DcgBelowIdeal | scripts/eval_retrieval_hit_at_k.py:173-190 | moving the relevant positions to the front never loses gain, and keeps it only if they were there |
| RetrievalMetrics.NdcgRange | scripts/eval_retrieval_hit_at_k.py:173-190 | with no relevant id twice in the top k, nDCG is in [0, 1] and is 1 exactly when the first min(distinct expected, k) positions are all relevant |
| RetrievalMetrics.NdcgIsShare | scripts/eval_retrieval_hit_at_k.py:173-190 | nDCG times the ideal gain is the gain of the top k |
| RetrievalMetrics.OneFoundAt | scripts/eval_retrieval_hit_at_k.py:153-190 | one expected id found once scores the discount of its position relative to that of the first |
| RetrievalMetrics.NdcgBoundedExactly | scripts/eval_retrieval_hit_at_k.py:173-190 | nDCG stays within 1 for every discount exactly when the top k holds no more hits than an ideal ranking |
| RetrievalMetrics.RepeatedIdScoresAboveOne | scripts/eval_retrieval_hit_at_k.py:153-190 | one relevant id retrieved twice scores above 1 |
| RetrievalMetrics.NdcgSwapRaises | scripts/eval_retrieval_hit_at_k.py:173-190 | swapping a relevant id above an irrelevant one inside the top k strictly raises nDCG |
| RetrievalMetrics.HitIsFirstHit | scripts/eval_retrieval_hit_at_k.py:138-150 | hit@k is 1 exactly when the first relevant position is among the top k |
| RetrievalMetrics.HitAndReciprocal | scripts/eval_retrieval_hit_at_k.py:138-150 | hit@k never falls with k and is 1 exactly when the reciprocal rank is at least 1/k |
| RetrievalMetrics.ReciprocalBetweenHits | scripts/eval_retrieval_hit_at_k.py:193-204 | hit@1 <= reciprocal rank <= hit@d for every d that covers what was retrieved |
| RetrievalReport.AddDepths | scripts/eval_retrieval_hit_at_k.py:225-245 | one query adds each depth's score once per time the depth is asked for |
| RetrievalReport.ComputeBotMetrics | scripts/eval_retrieval_hit_at_k.py:207-267 | the loop-accumulated report holds the per-query means, each counted as often as its depth is asked for |
| RetrievalReport.ReportOfDistinctDepths | scripts/eval_retrieval_hit_at_k.py:207-267 | for pairwise distinct hit depths, whatever was retrieved, the report holds plain means in [0, 1], hit rates grow with depth, and hit@1 <= MRR <= hit@d for a covering d |
| RetrievalReport.ReportNdcgInUnit | scripts/eval_retrieval_hit_at_k.py:207-267 | an nDCG figure of the report is in [0, 1] if its depth is asked for once and no query has a relevant id twice among the ids that depth looks at |
| RetrievalReport.DeepestSuffices | scripts/eval_retrieval_hit_at_k.py:225-242 | retrieving once at the deepest depth is enough: at every depth asked for, the cut ranking scores what the whole ranking scores |
| EmbeddingEval.Cos | scripts/evaluate_embeddings.py:49-59 | the loop computes the dot product over the product of the norms, 0 for a zero norm |
| EmbeddingEval.CauchySchwarz | scripts/evaluate_embeddings.py:49-59 | the square of the dot product never exceeds the product of the squared norms |
| EmbeddingEval.CosineInRange | scripts/evaluate_embeddings.py:49-59 | the cosine of any two vectors is in [-1, 1] |
| EmbeddingEval.SelfSimilar | scripts/evaluate_embeddings.py:49-59 | a non-zero vector has cosine 1 with itself |
| EmbeddingEval.PositionInSorted | scripts/evaluate_embeddings.py:176-178 | a pair's position in the descending sort is the number of pairs greater than it |
| EmbeddingEval.RankOf | scripts/evaluate_embeddings.py:174-178 | the rank read off the sorted list is the number of texts that beat the true one |
| EmbeddingEval.RankCounts | scripts/evaluate_embeddings.py:174-182 | the rank of the true text is the number of texts with a greater cosine, or an equal one and a later index |
| EmbeddingEval.FirstExactly | scripts/evaluate_embeddings.py:174-182 | it is 0 if and only if no other text has a greater cosine, or an equal one and a later index |
| EmbeddingEval.CloserNeverFalls | scripts/evaluate_embeddings.py:174-182 | making only the true text more similar never worsens its rank |
| EmbeddingEval.EvaluateModel | scripts/evaluate_embeddings.py:174-207 | each rank is the number of texts ahead of the true one, and recall at 1, recall at 5 and mean reciprocal rank are those of the ranks |
| EmbeddingEval.FiguresConsistent | scripts/evaluate_embeddings.py:205-207 | R@1 <= R@5 and R@1 <= MRR <= R@1 + (1 - R@1)/2 |
| MigrationFiles.ParseRev | scripts/alembic_dedup_renumber.py:26-38 | the last quoted assignment of either kind is the one read |
| MigrationFiles.SetDownReadsBack | scripts/alembic_linearize_chain.py:46-59 | a rewritten file reads back with the new down revision if and only if its first-column assignment is the last one, and its revision stays |
| MigrationFiles.SetRevReadsBack | scripts/alembic_dedup_renumber.py:105-119 | a rewritten file reads back with the new revision if and only if the line found for rewriting has no revision line after it, and else with the old one; its down revision stays |
| MigrationFiles.SuffixedBetween | scripts/alembic_linearize_chain.py:23-29 | a suffixed revision sorts after its number and before the next one |
| MigrationFiles.KeyOfDigits | scripts/alembic_linearize_chain.py:23-29 | a numbered revision sorts by its number and the one letter a to z that may follow it |
| MigrationFiles.NamedLast | scripts/alembic_linearize_chain.py:23-29 | one without a number sorts by name, after those numbered below 999999 and before those above |
| MigrationChain.HeadOfChain | scripts/alembic_linearize_chain.py:76-97 | a chain with distinct revisions has one head, its last revision, unless its base goes down to that one |
| MigrationChain.WalkFrom | scripts/alembic_linearize_chain.py:76-97 | following down from any revision of a chain visits each one below it once, and stops at the base |
| MigrationChain.PlanIs | scripts/alembic_linearize_chain.py:81-97 | the plan changes exactly the entries after the first whose down is not the revision before, each once |
| MigrationChain.PlanEmptyExactly | scripts/alembic_linearize_chain.py:99-101 | nothing is planned exactly when the order is a chain already |
| MigrationChain.OrderAscends | scripts/alembic_linearize_chain.py:76-77 | the order the chain follows is by sort key, and by file name where keys are equal |
| MigrationChain.PlanGoesDown | scripts/alembic_linearize_chain.py:81-97 | every planned change goes down to the revision of another file that does not sort after the file's own |
| MigrationChain.LinearizedChain | scripts/alembic_linearize_chain.py:81-112 | linearizing yields a chain if and only if every file it has to rewrite reads back, and leaves the base as it was |
| MigrationChain.LinearizedIsOneChain | scripts/alembic_linearize_chain.py:76-112 | with distinct revisions, no file to rewire that resists and a base that goes down outside: one head, the walk down visits everything once with keys that never rise and ends at the untouched base, and a second run plans nothing |
| MigrationChain.RenumberedDistinctExactly | scripts/alembic_dedup_renumber.py:61-119 | renumbering makes all revisions distinct if and only if no name it plans is already in use and every file it renames lets itself be rewritten |
| MigrationChain.LettersInOrder | scripts/alembic_dedup_renumber.py:83-93 | the duplicates of a revision get the letters a, b, c, ... in file order |
| MigrationChain.IndentedStaysDuplicate | scripts/alembic_dedup_renumber.py:115-117 | a revision line that is indented is read but not rewritten: two such files stay duplicates though the planned name is free |
| MigrationChain.RenumberThenLinearize | scripts/alembic_dedup_renumber.py:105-119 | renumber, list again in any order, linearize: revisions are distinct exactly under the renumber condition, chained exactly when every file to rewire can be, and both together make one chain through every revision |
| MigrationScripts.Versions.Renumber | scripts/alembic_dedup_renumber.py:41-126 | with --apply exactly the later duplicates are rewritten, to their suffixed names; without it nothing changes |
| MigrationScripts.Versions.Linearize | scripts/alembic_linearize_chain.py:62-114 | with --apply exactly the planned files are rewritten, in an order of ascending keys and each to a revision not above its own; without it nothing changes |
| MigrationScripts.Versions.PlanDuplicates | scripts/alembic_dedup_renumber.py:83-93 | all files of a revision but the first get the next suffix each, no file twice |
| MigrationScripts.RenumberAndLinearize | scripts/alembic_linearize_chain.py:62-114 | the renumber script and then the linearize script leave distinct revisions exactly when no planned name was taken and every renaming succeeded, chained with nothing left to plan exactly when every file to rewire can be, and with both, one chain |
| NumberFormat.NormNumIdempotent | scripts/eval_gate.py:81-83 | stripping separators between digits twice is the same as once |
| NumberFormat.BetweenDigits | scripts/eval_gate.py:81-83 | between two digits a dot, a comma or white space goes and anything else stays |
| NumberFormat.QuotedPriceNormalises | scripts/build_bot_summary.py:31-33 | in any surrounding text a printed number normalises to text that holds its plain digits |
| NumberFormat.QuotedPricePasses | scripts/eval_gate.py:86-102 | an answer quoting the printed price of v passes for the raw expected v in both scorers, whatever else it says |
| NumberFormat.QuotedTextPasses | scripts/eval_gate.py:86-102 | quoting the expected text in any case passes in both scorers, whatever stands around it |
| NumberFormat.VerdictsExactly | scripts/eval_gate.py:86-102 | each of the seven verdicts is given exactly in its case |
| NumberFormat.LongerPriceAlsoPasses | scripts/eval_rag_endtoend.py:78-86 | the match is by substring: in both scorers quoting a price that only begins with v also passes |
| NumberFormat.HoldingPricePasses | scripts/eval_gate.py:86-102 | quoting any price whose digits hold those of v passes for v in both scorers |
| NumberFormat.PrintedPricePassesExactly | scripts/eval_gate.py:86-102 | an answer whose only number is a printed price w, in any text without digits, passes for v, in both scorers, if and only if the digits of w hold those of v |
| NumberFormat.AsIntReadsBack | scripts/exactmatch_numeric_audit.py:50-52 | reading the printed number without its mark gives it back, and nothing for a negative one |
| NumberFormat.FormatInjective | scripts/build_bot_summary.py:31-33 | different numbers print differently |
| NumberPattern.NumsTakes | scripts/exactmatch_numeric_audit.py:39-47 | matches are taken from left to right, inside the text, each search going on where the last match ended |
| NumberPattern.FindsUnmarked | scripts/exactmatch_numeric_audit.py:39-47 | a printed number of at least 1000 standing alone is found whole and read back |
| NumberPattern.FindsPlain | scripts/exactmatch_numeric_audit.py:39-47 | plain digits standing alone are found if and only if there are at least four |
| NumberPattern.FindsYear | scripts/exactmatch_numeric_audit.py:39-47 | up to three digits, a slash and four digits are found as one |
| NumberPattern.OtherThanYear | scripts/exactmatch_numeric_audit.py:39-47 | with another number of digits after the slash those are a number of their own, or none |
| NumberPattern.LongRunStops | scripts/exactmatch_numeric_audit.py:39-47 | four or more digits are matched alone, without groups or a year that follow |
| NumberPattern.WordAfterHides | scripts/exactmatch_numeric_audit.py:39-47 | a word character after plain digits or a year hides them |
| NumberPattern.MarkLosesLastGroup | scripts/exactmatch_numeric_audit.py:39-52 | with its mark, a price below a million is not found and a larger one is read as its thousandth |
| NumberPattern.MarkLosesLastGroupInText | scripts/exactmatch_numeric_audit.py:39-52 | so it is inside any text: after a text that ends in no word character, dot or slash the pattern finds what it finds there, then in the price what it finds when that stands alone, then what follows |
| StepAudit.PercentileInRange | scripts/auditor_analyze_round.py:326-337 | the interpolated percentile lies between the least and the greatest sample |
| StepAudit.PercentileMonotone | scripts/auditor_analyze_round.py:326-337 | it grows with the percentage |
| StepAudit.PercentileOfSlower | scripts/auditor_analyze_round.py:326-337 | raising any samples never lowers it, though they are sorted anew |
| StepAudit.PercentileOfPermutation | scripts/auditor_analyze_round.py:326-337 | the order of the samples does not matter |
| StepAudit.PercentileAtSample | scripts/auditor_analyze_round.py:326-337 | where the fractional position is whole the percentile is that order statistic |
| StepAudit.PercentileBetweenSamples | scripts/auditor_analyze_round.py:326-337 | between two neighbouring samples it runs straight from the one to the other |
| StepAudit.PercentileOfEvenSamples | scripts/auditor_analyze_round.py:326-337 | of evenly spaced samples it is exactly the asked part of the way from the first to the last |
| StepAudit.BuildStepMatrix | scripts/auditor_analyze_round.py:352-384 | one row per canonical step, in order, with its code, title and database name, the counts, errors and the rounded percentiles at 50 and 95 of its own firings, and each verdict exactly under its condition |
| StepAudit.SlowerNeverBetter | scripts/auditor_analyze_round.py:352-384 | slower firings with the same errors never improve a step's verdict, whatever the budgets and for any monotone rounding |
| StepLatency.CoversFraction | scripts/analyze_step_latency.py:79-91 | the reported value is a sample that at least the asked fraction of samples do not exceed |
| StepLatency.NearestRankMonotone | scripts/analyze_step_latency.py:79-91 | it grows with the percentage |
| StepLatency.Aggregate | scripts/analyze_step_latency.py:153-188 | each step that occurs gets the count, errors, error percentage, first flag and percentiles of exactly its own rows |
| StepLatency.ErrorsCount | scripts/analyze_step_latency.py:153-188 | the errors are the rows whose status is neither "success" nor "ok" |
| StepLatency.FlagIsFirst | scripts/analyze_step_latency.py:153-188 | the flag is the first that is given and not empty |
| StepLatency.StatsConsistent | scripts/analyze_step_latency.py:153-188 | p50 <= p95 <= p99, no more errors than rows, and an error percentage in 0..100 that is 0 only without errors |
| ScoreThreshold.CrashesExactly | scripts/analyze_score_distribution.py:114-132 | the index is out of range exactly for a target at or below -100/n |
| ScoreThreshold.AdmitsTarget | scripts/analyze_score_distribution.py:114-132 | for a target in 0..100 the threshold is an answered score that admits at least that percentage, and above plus below is the total |
| ScoreThreshold.AnsweredScoresAre | scripts/analyze_score_distribution.py:114-132 | the scores considered are those of the turns answered, one for each |
| ScoreThreshold.RefusedBelowCounts | scripts/analyze_score_distribution.py:114-132 | the refused count is that of the turns with one of the four refusal statuses and a score below the threshold |
| ScoreThreshold.NearlyTight | scripts/analyze_score_distribution.py:114-132 | with distinct scores, two positions higher would miss the target |
| ScoreThreshold.MakeHistogram | scripts/analyze_score_distribution.py:105-111 | bucket b holds the statuses of exactly the turns whose score falls in it |
| ScoreThreshold.NothingDropped | scripts/analyze_score_distribution.py:105-111 | the buckets together count every turn |
| Buckets.ListingIgnoresOrder | scripts/cost_audit.py:609-624 | a sorted listing of keyed sums whose order tells the keys apart is determined by the bag of rows |
| Buckets.BucketsAddUp | scripts/cost_audit.py:588-607 | the buckets of a fold add up to the whole |
| FeatureCosts.PerFeatureAggregate | scripts/cost_audit.py:570-624 | one line per feature that occurs, holding the sums of its rows, dearest first, then by name |
| FeatureCosts.FeatureOfIs | scripts/cost_audit.py:570-590 | a row goes under its feature's name without surrounding white space, and under "unset" if there is none |
| FeatureCosts.DearestFirst | scripts/cost_audit.py:609-624 | no line costs more than one before it, and names ascend where costs are equal |
| FeatureCosts.ReportIgnoresOrder | scripts/cost_audit.py:570-624 | reordering the rows leaves the report identical |
| FeatureCosts.ReportConserves | scripts/cost_audit.py:570-624 | calls, tokens and cost over all lines are those of all rows, none dropped |
| CacheAudit.AggregateRows | scripts/audit_prompt_cache_utilization.py:152-202 | one line per purpose and provider with prompt tokens: its sums and the means of the prices given, sorted by provider and purpose |
| CacheAudit.AgreedPrice | scripts/audit_prompt_cache_utilization.py:152-202 | a line's nominal price is the one its rows agree on, and none if they give none |
| CacheAudit.LinesAscend | scripts/audit_prompt_cache_utilization.py:198-202 | providers ascend, and purposes within a provider |
| CacheAudit.AuditIgnoresOrder | scripts/audit_prompt_cache_utilization.py:152-202 | reordering the rows leaves the lines identical |
| CacheAudit.AuditConserves | scripts/audit_prompt_cache_utilization.py:152-202 | calls, tokens and cost over all lines are those of the rows with prompt tokens |
| CacheAudit.HitRatioExplainsRate | scripts/audit_prompt_cache_utilization.py:82-130 | the estimate explains the effective rate as a mix of nominal and cached reads exactly when that rate lies between the two |
| CacheAudit.SavingsLeft | scripts/audit_prompt_cache_utilization.py:132-144 | the reported figure is what full caching would still save if and only if the nominal rate is what was paid, and otherwise misses it by the difference of the rates times the prompt tokens |
| CacheAudit.SavingsNotHit | scripts/audit_prompt_cache_utilization.py:82-144 | with the assumed cache discount and a rate between the two, what is still to save is the reported figure times one minus the hit ratio |
| CacheAudit.SavingsShownWrong | scripts/audit_prompt_cache_utilization.py:132-144 | two sets of figures whose reported saving is wrong, one of them with an estimated hit ratio of 0 |
| SessionLog.SonnetNoDearerExactly | scripts/cost_audit.py:34-70 | Sonnet's price is no dearer for every usage exactly for models not priced as Haiku |
| SessionLog.PriceList | scripts/cost_audit.py:34-62 | the price of each listed model, and of a model without a name |
| SessionLog.PriceByName | scripts/cost_audit.py:50-62 | any other model is priced by the first listed name it holds, and as Opus if it holds none |
| SessionLog.HotCommandsAre | scripts/cost_audit.py:287-296 | a command is hot if and only if it holds one of the listed commands, or in upper case one of the listed statements |
| SessionLog.IterEvents | scripts/cost_audit.py:73-122 | the loop keeps the first line of every session and message id |
| SessionLog.DedupedIdempotent | scripts/cost_audit.py:73-122 | filtering a filtered log changes nothing |
| SessionLog.RepeatedLineIgnored | scripts/cost_audit.py:73-122 | a line seen before can be repeated anywhere later without a trace |
| SessionLog.MoreEventsKeepA1 | scripts/cost_audit.py:497-504 | adding events to a session never moves it from T-A1 to T-A2 |
| SessionLog.EarlierLineHidesWrite | scripts/cost_audit.py:97-101 | but a raw line with the same session and message id, put before the only hot one, does move it |
| SessionLog.NewLineEvents | scripts/cost_audit.py:73-122 | a raw line put anywhere into the log changes nothing if its session and message id were seen before it, and else takes the place of the event that has them |
| TierReplay.NewLineTier | scripts/cost_audit.py:497-504 | so after putting in a line the tier of a session is that of its old events, or of those with the line in the place of the one sharing its ids |
| TierReplay.NewLineKeepsA1Exactly | scripts/cost_audit.py:497-504 | a session in T-A1 stays there if and only if the line's ids were seen before it, or its events with the line in that place are still T-A1 |
| TierReplay.NewLineKeepsA1 | scripts/cost_audit.py:497-504 | in particular a line never moves a session out of T-A1 unless a later line has its session and message id |
| TierTotals.ReportIsTotals | scripts/cost_audit.py:492-516 | totals added up session by session are those of the events, whole and per tier |
| TierReplay.AddToolUses | scripts/cost_audit.py:469-486 | hot writes, hot commands and hot reads are recorded exactly when a tool use is one |
| TierReplay.Collect | scripts/cost_audit.py:446-486 | every session's record holds the calls, cost, first model and hot effects of its selected events |
| TierReplay.Classify | scripts/cost_audit.py:497-507 | the tier and the replay cost of a session are those its events determine |
| TierReplay.TierReplay | scripts/cost_audit.py:432-516 | the report holds the actual and replayed cost of the deduplicated, selected events, whole and per tier, with the number of sessions |
| TierReplay.TiersPartition | scripts/cost_audit.py:510-516 | the two tiers share out all calls, actual and replay costs |
| ReplayPrices.ReplayNoDearerExactly | scripts/cost_audit.py:496-516 | the replay costs no more than was paid, whatever tokens the events used, if and only if every event is replayed at prices no dearer, rate by rate, than it was paid at |
| ReplayPrices.NoDearerIs | scripts/cost_audit.py:34-70 | which means: no event of a T-A2 session is priced as Haiku, and none of a T-A1 session cheaper than the session's first model |
| ReplayPrices.ReplayNoDearer | scripts/cost_audit.py:496-516 | then neither the whole nor a tier costs more replayed, and T-A1 costs the same where each session keeps its first price |
| ReplayPrices.HaikuReplayDearer | scripts/cost_audit.py:506-508 | without that, a Haiku session replayed with Sonnet is dearer |
| ReplayPrices.MixedSessionReplayDearer | scripts/cost_audit.py:506-508 | and so is a T-A1 session that starts with Opus and spends only with Sonnet: 3 paid, 15 replayed |
| TierReplay.RepeatedLinesChangeNothing | scripts/cost_audit.py:73-122 | repeating log lines already seen leaves the report as it was |
| GoldenSet.ScaleDistribution | scripts/generate_golden_set.py:161-176 | nine rounded shares of at least 1, the rest of at least 1 for the last category, and the table itself for its own total |
| GoldenSet.ScaledSumExactly | scripts/generate_golden_set.py:34-46 | every category gets at least 1, the sum is never below the total, and equals it exactly outside the totals up to 11, 17-20, 28-31, 38 and 49 |
| ConfigGate.WriteBaseline | scripts/check_config_completeness.py:109-118 | the file is the header and the missing keys, sorted, one per line |
| ConfigGate.BaselineRoundTripExactly | scripts/check_config_completeness.py:98-118 | reading back a written baseline gives exactly the keys written if and only if each fits on a line, has no white space at its ends and does not start as a comment |
| ConfigGate.BaselineRoundTrip | scripts/check_config_completeness.py:98-118 | for keys of the contract's shape, reading back a written baseline gives exactly the keys written |
| ConfigGate.BaselineUnique | scripts/check_config_completeness.py:109-118 | the text is determined by the set of keys |
| ConfigGate.GateIsRatchet | scripts/check_config_completeness.py:129-162 | after writing a baseline of such keys the gate is green, and stays green exactly while nothing is unseeded that was not unseeded then |
| ConfigGate.StrictGateExactly | scripts/check_config_completeness.py:129-162 | with --strict the gate is green exactly when the whole contract is seeded |

Small facts stated beside these pin what single functions return: `ChatQueueSafety.OnceOnly`,
`ChatQueueSafety.ProducedWaits`, `ChatQueueSafety.ClaimedIs`, `ScoreRunsSafety.Pad2Reads`, `GoldenSet.RoundRounds` (nearest,
ties to even), `CacheAudit.HitRatioInRange`, `CacheAudit.KeyOfIs`, `CacheAudit.NoTokensNoPrice`,
`ScoreThreshold.BucketInterval`, `ConfigGate.SeedingKeepsGreen`, `ConfigGate.ExitCode`,
`ConfigGate.KeyShapeIs`, `ConfigGate.BreaksAre`, `Text.SpacesAre`, `Text.StripIs`,
`Text.FirstDifference` (Python's string order), `SessionLog.PricedIs`, `SessionLog.HotPathsAre`,
`SessionLog.WritesAre`, `SessionLog.BaseIs`, `StepLatency.NearestRankEdges`, `StepLatency.TimesAre`,
`EmbeddingEval.CountBelowCounts`, `EmbeddingEval.ReciprocalsAdd`, `RetrievalMetrics.NdcgOfNothing`,
`RetrievalReport.MeanOfSame`, `RetrievalReport.ErrorIsMiss`, `ScoreThreshold.BucketEdges`,
`CacheAudit.PotentialSavingsIs`, `ConfigGate.LastLine`,
`NumberFormat.MarkEndsPrices`, `NumberFormat.NoNumber`, and `NumberFormat.SoundAlphabet` (the facts
about characters that results ask for can be had).

## Left out

- The application package `src/ragbot`: chunking, the query graph, the outbox and the parsers are not part of this model; the graph is a call that returns an answer or raises.
- Liveness of the consumer: the worker reads only new entries, so a crashed worker's pending entries wait for an outside re-claim, which is an optional event here.
- Transport, databases, argument parsing, printing and the rendering of reports: only their effect on the modelled state is kept.
- Expiry of result hashes: the history of writes is kept for ever.
- Floating-point rounding and Decimal's 28 digits: arithmetic is exact, and a verdict that depends on rounding is proved for every monotone rounding.
- The language-model judges, embedders and refusal phrases: a refusal is a boolean, an embedding a vector.
- CaptureScore.Scorer.One: is one task; the gather over a bot's questions is not a method, the other tasks are the events that this task's awaits let through.
- CaptureScore.Scorer.RecomputeAvgs: brings the row counts up to date and not the average scores, which the model does not hold.
- The command-line parsing of depths in `eval_retrieval_hit_at_k.py:430-444`: a repeated depth is covered by counting how often it is asked for.
- The mean and contrast similarities of `evaluate_embeddings.py` and its encoder errors.
- MigrationScripts.Versions.Renumber: does not rename files on disk, so it does not show what happens when two planned file names collide, or when more files share a revision than there are characters to suffix.
- MigrationFiles.ParseRev: sees a file as its assignment lines; annotated headers, which the script's pattern does not match, are other lines.
- NumberFormat.AsIntReadsBack: digits of other scripts, on which Python's `int` and `isdigit` may disagree, are not read.
- NumberFormat.NormNumIdempotent: lower-casing works character by character, without the final sigma's context.
- CacheAudit.AggregateRows: the buckets are values in a dictionary rather than objects updated through references, so aliasing between buckets is not shown.
- StepAudit.BuildStepMatrix: a row of the matrix is a value with updated fields rather than an object; its label is called title here.
- RetrievalMetrics.NdcgBoundedExactly: exact for all discounts together; for one given discount the condition suffices, but more hits than an ideal ranking holds may still score at most 1.
- TierReplay.AddToolUses: keeps no counter of all written files, which only the printed detail uses.
- TierReplay.Collect: keeps neither the first time stamp nor the branch of a session, which only the printed detail uses.
- TierReplay.Classify: gives the tier without the text of its reason.
- SessionLog.IterEvents: starts from parsed assistant lines; unreadable lines and files are dropped before.
- SessionLog.MoreEventsKeepA1: is about a session's events after the duplicate filter; for raw lines see TierReplay.NewLineTier.
- ConfigGate.BaselineRoundTrip: how the contract's keys are found in the source text is not modelled, only their shape.
- GoldenSet.ScaledSumExactly: the ratio is exact, not a float.
- A/B drivers, load generators, prompt builders, clean-up SQL and scripts with a single branch: they would add only easy members.
