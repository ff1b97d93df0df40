# Verified models of the MemoryMaster scripts

MemoryMaster keeps a memory of conversations. The scripts modelled here turn
session logs and exported conversations into turns, check the artifacts of a
compaction run, drain the capture queue, and evaluate what the memory does.
This project models their logic in Dafny and proves what they are for.

Loops and objects that the scripts update in place are methods and classes,
each proved against a specification function; the theorems are about those
functions, and say what they give in terms of the inputs alone: the lines of the
log, the places of the items, the fields of the payloads, the answers.
`dafny verify dfyconfig.toml` checks everything.

| file | models |
|---|---|
| `CodexLive.dfy` | the resumable reader of live session logs, with its shared pending table |
| `CodexLiveProofs.dfy` | polling in any schedule gives what one read gives |
| `CodexLiveInvariants.dfy` | what holds in every reachable state; where the obvious claims fail |
| `CodexLivePlace.dfy` | session, directory, current turn, counts and failures, told from the log alone |
| `CodexLiveContent.dfy` | what the emitted rows say, told from the log alone |
| `TraceSections.dfy`, `TraceValidator.dfy` | the compaction trace validator: passes exactly the well-formed payloads |
| `TraceReferences.dfy`, `TraceRules.dfy` | what a reference says; the rules in terms of the fields alone |
| `TraceTheorems.dfy` | what a passed validation guarantees, and what it does not |
| `Pairing.dfy`, `PairingTheorems.dfy` | the pairing of a conversation into turns, and its uniqueness |
| `PairingPlaces.dfy` | the time and the asides of a turn, by the places of the items |
| `ParentWalk.dfy`, `MappingMessages.dfy` | messages out of a node mapping that may hold cycles |
| `RowConversion.dfy`, `RowContents.dfy` | rows into turns, with minted ids |
| `Drain.dfy`, `DrainReasons.dfy` | the bounded drain of the capture queue, and exactly when it reports which reason |
| `ChunkedEval.dfy`, `ChunkedEvalTheorems.dfy` | the resumable chunked evaluation |
| `ChunkedEvalPayload.dfy` | what its payload says, told from the answers, the files and the attempts |
| `Pareto.dfy`, `ParetoRates.dfy` | threshold gate, Pareto frontier and recommendation |
| `Wilson.dfy`, `Kappa.dfy` | Wilson lower bound, Cohen's kappa |
| `AveragePrecision.dfy`, `Bm25.dfy`, `Bm25Terms.dfy`, `Percentile.dfy` | ranking metrics and nearest-rank percentiles |
| `EmailCursor.dfy` | UID selection and cursor of the mailbox reader |
| `Basics.dfy`, `Sorting.dfy`, `Reals.dfy` | shared vocabulary |

Decoded JSON is a datatype and strings are already stripped, with "" for an
absent text. Floats are `real`; a square root is a parameter with `root >= 0`
and `root * root == x`; a logarithm is a function parameter that is positive
above 1, or rising. Rounding is Python's half-to-even on reals, or a parameter
that is monotone where that is needed.
Clocks, processes and servers are parameters that give their answers.

## Where the code does not do what one would expect

- `compaction_trace_validate.py:368-372` says that the summaries' claim lists
  partition the claims, but compares only totals. `SwappedAssignmentsPass` is a
  payload that passes with two claims swapped between two summaries;
  `PartitionIffNoneMissing` says exactly when a passing payload is partitioned.
- `codex_live_to_turns.py:178` fills a blank session id into a record that
  keeps its old key. Every key names its own record exactly when no log file
  name leaves the session id blank (`PendingKeysNameTheirRecords`).
- `codex_live_to_turns.py:242`: the pending table is shared by all files. Polling in
  path order refines a batch read in path order, for all logs within an allotment
  of pending keys to paths, if and only if no two paths are allotted the same turn
  of the same session (`RefinesIffKeysApart`); `SharedKeysBreakRefinement` is the
  failing schedule, for any two paths, session, turn and filter, and in path order
  whenever the answering log's path comes first.
- `autoresearch_longmemeval_qa.py:178-190`: a benchmark process that exits with 0
  without writing its file lets a stale chunk be adopted under a new fingerprint
  (`SilentSuccessAdoptsStaleAnswers` is such a pair of runs). `ResumeEqualsFresh`
  holds for every directory if a process that exits with 0 has written; without
  that, a directory is right for a job if and only if no file in it would pass for
  a window with other answers than the benchmark's, or the job cannot finish
  (`ChunkIsTrueIffSafe`, `FreshIffSafe`, and `ReportsFreshIffSafe` for the payload).
- `email_live_to_turns.py:203-205`: new messages beyond the cap are passed by the
  cursor and never fetched (`SkippedIsLost`); a poll is complete if and only if
  the new ones fit its cap (`CompleteExactlyWithinTheCap`). A UID listed twice in
  one SEARCH answer is fetched twice (`RepeatedListingIsFetchedTwice`); no UID is
  attempted twice in a run, whatever the caps, if and only if no answer names
  twice a UID above all those named before (`NeverTwiceIffListedOnce`).
- `conversation_to_turns.py:429-432`: a row may bring an id that looks minted. All
  output ids differ if and only if the ids brought along differ and none is one of
  those to be minted (`IdsAreDistinctIffOwnIdsApart`); `LookalikeIdIsRepeated` is a
  pair of rows that come out with one id.
- `eval_index_vs_similarity.py:317`: rounded to four digits, kappa can read 1 with a
  disagreement. Of n pairs with d disagreements and f and s yes-answers it reads 1
  if and only if `20000 * n * d <= f * (n - s) + s * (n - f)` (`ReadsOneIff`), so
  reading 1 means agreement for all lists of n pairs if and only if n is below
  40000 (`OneMeansAgreementIffFew`); from there on `NearPerfectReadsOne` is a list
  with one disagreement that reads 1.
- `eval_bm25_sweep.py:223`: average precision at k divides by the hits in the head, not
  by all relevant items, so a hit that moves up into the head can lower it:
  `PromotionCanLower` falls from 1 to 5/6. `PromotionAtK` says exactly when a swap
  raises the score and when it lowers it.
- `benchmarks/perf_smoke.py:45-47` and `scripts/eval_query_memory_quality.py:66-67`
  raise above 100 percent where `agg_recall_latency.py` clamps
  (`VariantsAgreeUpToAHundred`).

## Model

| member | source | states |
|---|---|---|
| CodexLive.NormalizeTextList | scripts/codex_live_to_turns.py:39-48 | keeps the first occurrence of each non-blank text, in order |
| CodexLive.PendingTable.EnsurePending | scripts/codex_live_to_turns.py:154-185 | the table changes at one key only; an existing record has only its blank fields filled in |
| CodexLive.FinalizeTurn | scripts/codex_live_to_turns.py:188-220 | there is a row exactly with both ids and some text; it carries the record's texts, time and workspace, and the record's notes once each, the source first |
| CodexLive.OnTurnContext | scripts/codex_live_to_turns.py:278-295 | a turn context overrides the workspace and touches no other slot |
| CodexLive.OnTaskStarted | scripts/codex_live_to_turns.py:299-311 | a started turn has a record, stamped once |
| CodexLive.OnUserMessage | scripts/codex_live_to_turns.py:313-329 | a message counts for the turn it names, else for the current turn: in that slot only, a non-blank message replaces the user text |
| CodexLive.OnTaskComplete | scripts/codex_live_to_turns.py:331-355 | the slot of the named turn, else of the current one, is emptied, and the row is emitted if the workspace is allowed |
| CodexLive.ReadEntry | scripts/codex_live_to_turns.py:269-362 | one entry changes at most the slot of the turn it is about, whatever else the table holds |
| CodexLive.LoadFile | scripts/codex_live_to_turns.py:249-369 | the line loop resumes at the saved line and fails at the first unread line that does not parse |
| CodexLive.LoadRows | scripts/codex_live_to_turns.py:234-376 | one poll: rows, input count and next cursor, or the first failure and no cursor |
| CodexLive.FailureSpreads | scripts/codex_live_to_turns.py:249-268 | the first failing file fails the whole poll |
| CodexLiveProofs.Frame | scripts/codex_live_to_turns.py:154-185 | reading a file's lines neither sees nor changes the slots of other turns |
| CodexLiveProofs.RejectedPollFails | scripts/codex_live_to_turns.py:264-268 | a poll that meets an unparsable unread line produces nothing |
| CodexLiveProofs.SchedulesConverge | scripts/codex_live_to_turns.py:234-376 | any two schedules that consumed the same lines end with the same rows per file, cursor, pending table and input count |
| CodexLiveProofs.PollingRefinesBatch | scripts/codex_live_to_turns.py:234-376 | polling growing logs in any schedule, failed polls included, gives exactly what one read from an empty cursor gives |
| CodexLiveProofs.PollingAgainIsSilent | scripts/codex_live_to_turns.py:234-376 | once all lines are consumed, another poll emits nothing and leaves the cursor as it is |
| CodexLiveProofs.ConsumedParses | scripts/codex_live_to_turns.py:257-268 | only lines that parse are ever consumed, over any schedule |
| CodexLiveInvariants.PendingKeysNameTheirRecords | scripts/codex_live_to_turns.py:143-185 | over all runs every pending key is the session::turn of its record, if and only if no default session id is blank |
| CodexLiveInvariants.RunSlotIsSolo | scripts/codex_live_to_turns.py:234-376 | over any schedule, a file's slots of the shared table are what its consumed lines give on their own |
| CodexLiveInvariants.RunPendingIffUnfinished | scripts/codex_live_to_turns.py:331-362 | over any schedule, a turn is pending exactly when the last consumed entry about it neither completed nor aborted it, and no other key is in the table |
| CodexLiveInvariants.RunRowsAreClean | scripts/codex_live_to_turns.py:202-231 | over any schedule, rows have ids, text and an allowed workspace, and are never more than the completions consumed |
| CodexLiveInvariants.SharedKeysBreakRefinement | scripts/codex_live_to_turns.py:108-260 | any two files sharing a session and a turn, any filter: a schedule of polls that finishes a turn which the batch read leaves pending, all in path order when the answering file comes first |
| CodexLiveInvariants.RefinesIffKeysApart | scripts/codex_live_to_turns.py:98-376 | polling in path order refines a batch read for all logs within an allotment of keys to paths, if and only if no two paths are allotted one turn |
| CodexLiveContent.RunRecordsTellTheLog | scripts/codex_live_to_turns.py:154-362 | over any schedule, a turn has a record in the shared table exactly when the consumed lines begin it after last finishing it; the record holds the last user message, the first time and the directory that those lines give the turn since then |
| CodexLiveContent.RowsAreTheCompletedTurns | scripts/codex_live_to_turns.py:202-362 | after any schedule, a file's rows are, in log order, exactly the completed turns with text and an allowed workspace, each with the texts, time, directory and notes the log gives it; which lines are about a turn is told by the last lines that name a session and start or end a turn |
| CodexLivePlace.PlaceIsTold | scripts/codex_live_to_turns.py:249-362 | the session is the id of the last session_meta that has one, else the file's own; the directory likewise; the current turn is that of the last task_started, unless it has been completed or aborted since |
| CodexLivePlace.KeyIsTold | scripts/codex_live_to_turns.py:278-362 | a line is about the turn it names; a message, completion or abort that names none is about the current turn |
| CodexLivePlace.OwnedIsTold | scripts/codex_live_to_turns.py:143-144 | the keys that a file's lines may touch are those of the turns some line is about |
| CodexLivePlace.CursorTellsThePlace | scripts/codex_live_to_turns.py:364-369 | over any schedule, the cursor of a file holds the count of lines consumed and the session, directory and turn they tell |
| CodexLivePlace.RunCountsEveryEntry | scripts/codex_live_to_turns.py:257-267 | over any schedule, the input count is the number of entries consumed, blank lines left out |
| CodexLivePlace.FilesInOrder | scripts/codex_live_to_turns.py:249-371 | a poll's rows and count are those of its files, one after the other |
| CodexLivePlace.PollFailsAtTheFirstBadLine | scripts/codex_live_to_turns.py:257-266 | a poll fails exactly when some unread line does not parse, and names the first such line of the first such file |
| CodexLiveContent.FilterIsAllowed | scripts/codex_live_to_turns.py:223-231 | a workspace passes exactly when it begins, in any case, like an included directory, if any are given, and like no excluded one; an unknown workspace passes unless some are included by name |
| CodexLiveContent.FirstOnesInOrder | scripts/codex_live_to_turns.py:39-48 | the texts kept are the first of their kind, in the order in which they came |
| TraceSections.Validation.Add | scripts/compaction_trace_validate.py:39-57 | every check is recorded; a failed error check makes the report fail, a failed warning never does |
| TraceSections.Validation.ExpectDict | scripts/compaction_trace_validate.py:60-64 | a value that is no object is an error and reads as empty |
| TraceSections.Validation.ExpectList | scripts/compaction_trace_validate.py:67-71 | a value that is no list is an error and reads as empty |
| TraceSections.CheckSummaries | scripts/compaction_trace_validate.py:121-150 | the summary loop fails exactly on a blank or repeated id, a missing list or a wrong count |
| TraceSections.CheckClaims | scripts/compaction_trace_validate.py:152-182 | the claim loop fails exactly on a bad or repeated number, a wrong node id or an unknown summary |
| TraceSections.CheckCitations | scripts/compaction_trace_validate.py:184-201 | the citation loop fails exactly on a bad or repeated number or a wrong node id |
| TraceSections.CheckEdges | scripts/compaction_trace_validate.py:203-235 | the edge loop fails exactly on blank fields or unknown end points, and warns once per unknown type, in order |
| TraceSections.CheckSourceRows | scripts/compaction_trace_validate.py:257-295 | the summary rows fail exactly when one does not describe its summary node |
| TraceSections.CheckLineageRows | scripts/compaction_trace_validate.py:304-342 | the lineage rows fail exactly when one does not describe its claim node |
| TraceSections.SumOfSizes | scripts/compaction_trace_validate.py:364-364 | adds up the sizes of the claim sets, in whatever order the dict gives them |
| TraceValidator.ExpectedEdges | scripts/compaction_trace_validate.py:237-239 | the edges expected from the dict are the assignments the claim nodes state |
| TraceValidator.ExpectedCitationEdges | scripts/compaction_trace_validate.py:240-245 | the edges and the union expected from the dict are the citations the claim nodes state |
| TraceValidator.CheckGraph | scripts/compaction_trace_validate.py:203-255 | on sound nodes, passes exactly when the edges are the assignments and the citations |
| TraceValidator.CheckTrace | scripts/compaction_trace_validate.py:257-349 | on sound nodes, passes exactly when the rows describe all and only the summaries and the claims |
| TraceValidator.CheckCounts | scripts/compaction_trace_validate.py:351-382 | passes exactly when run counts, list sizes and citation unions agree |
| TraceValidator.ValidatePayloads | scripts/compaction_trace_validate.py:89-402 | passes if and only if the payloads are well-formed, which by WellFormedIsRules is to keep the rules on the fields; its warnings are the edges of unknown type |
| TraceRules.WellFormedIsRules | scripts/compaction_trace_validate.py:89-402 | well-formed means, in terms of the fields alone: sound and distinct node ids and numbers, counts that count, edges that are exactly the stated assignments and citations, rows that repeat the nodes, one for each, and citations that are cited on both levels |
| TraceRules.WarningsAreTold | scripts/compaction_trace_validate.py:228-235 | one warning for each edge that is not of a known type, by its place |
| TraceReferences.ReferenceReads | scripts/compaction_trace_validate.py:74-86 | an integer n, or a text that reads as n, refers to "citation:" and the numeral of n from 0 on; a text that starts with "citation:" to itself; everything else to nothing |
| TraceReferences.ReferencesAreTheNodesNamed | scripts/compaction_trace_validate.py:278-290 | entries that name sound citation nodes, by number, by a text for it or by id, refer to exactly the ids of those nodes |
| TraceReferences.SoundGraphsHaveATrace | scripts/compaction_trace_validate.py:89-402 | a graph passes with some traceability payload if and only if its own side is sound, and then with the one that cites every citation by number |
| TraceReferences.CitingPasses | scripts/compaction_trace_validate.py:278-349 | a payload with a citation, cited by integer in one row and by a text in another, that passes |
| TraceTheorems.LineageRowsAreEdges | scripts/compaction_trace_validate.py:237-256 | if validation passes, each lineage row is backed by edges |
| TraceTheorems.EdgesAreLineageRows | scripts/compaction_trace_validate.py:246-349 | if validation passes, each edge of a known type is told by a lineage row |
| TraceTheorems.EveryCitationIsReached | scripts/compaction_trace_validate.py:246-382 | if validation passes, every citation node is reached by a summary-claim-citation path of edges |
| TraceTheorems.UnknownEdgesAreHarmless | scripts/compaction_trace_validate.py:228-235 | a complete edge of unknown type never changes the verdict |
| TraceTheorems.AssignedOnce | scripts/compaction_trace_validate.py:170-177 | each claim is assigned to exactly one summary, so the assignments add up to the claims |
| TraceTheorems.PartitionIffNoneMissing | scripts/compaction_trace_validate.py:364-372 | a passing payload's claim lists are the assignments if and only if no claim is missing from the summary it names |
| TraceTheorems.SwappedAssignmentsPass | scripts/compaction_trace_validate.py:368-372 | a payload that passes although its claim lists are not the assignments |
| Pairing.OnUser | scripts/conversation_to_turns.py:264-290 | the user branch: a turn opens after an assistant, and takes the waiting observations |
| Pairing.OnAssistant | scripts/conversation_to_turns.py:292-304 | the assistant branch, also for a conversation that starts with one |
| Pairing.OnOther | scripts/conversation_to_turns.py:306-311 | an aside joins a turn that has no answer yet, and waits otherwise |
| Pairing.ProgressStep | scripts/conversation_to_turns.py:256-311 | counting turns afresh over all items and going on item by item agree |
| Pairing.Finish | scripts/conversation_to_turns.py:313-336 | the open turn is closed; late observations go to the last turn, or make one orphan turn |
| Pairing.PairItemsToTurns | scripts/conversation_to_turns.py:251-336 | each item lands in the turn that the numbering by assistant-to-user changes gives it, and each turn has the time of its first dated item |
| PairingTheorems.ObservationsAreConserved | scripts/conversation_to_turns.py:251-336 | observations across the turns are the other-role texts, in order, each once |
| PairingTheorems.SpokenTextIsConserved | scripts/conversation_to_turns.py:251-336 | user texts joined across the turns are the user items joined, and likewise for the assistant |
| PairingTheorems.TurnShape | scripts/conversation_to_turns.py:251-336 | every turn but the first has user text, every turn but the last has assistant text |
| PairingTheorems.SegmentationIsUnique | scripts/conversation_to_turns.py:264-311 | a dialogue has at most one cut into user-then-assistant blocks |
| PairingTheorems.PairingIsTheSegmentation | scripts/conversation_to_turns.py:251-336 | a cut of the dialogue is such a segmentation if and only if it is the one pairing makes |
| PairingTheorems.TurnsHoldTheSegmentation | scripts/conversation_to_turns.py:251-336 | the turns are the joined blocks of that segmentation, one a block, or one orphan turn |
| PairingPlaces.TurnIsDated | scripts/conversation_to_turns.py:256-336 | a turn's time is the first non-blank time among what is said in it and the asides between its first user item and its first assistant item; it is the row's time exactly when there is none |
| PairingPlaces.TurnHoldsItsAsides | scripts/conversation_to_turns.py:306-336 | a turn's observations are the asides for which it is the first turn without an answer yet, or the last turn, in order |
| ParentWalk.ClimbParents | scripts/conversation_to_turns.py:197-209 | the while loop over cursor and visited terminates on any graph and follows the walk |
| ParentWalk.MessagesFromMapping | scripts/conversation_to_turns.py:185-224 | the messages of the parent chain, or of all nodes sorted |
| ParentWalk.WalkIsTheParentChain | scripts/conversation_to_turns.py:197-207 | for any graph, cyclic or not, the walk is the one maximal path of distinct nodes linked child to parent, of at most as many steps as nodes |
| ParentWalk.MessagesAreChainOrSorted | scripts/conversation_to_turns.py:185-224 | the chain's messages root-most first; if it has none, a sorted permutation of all messages |
| MappingMessages.FallbackIsInTimeOrder | scripts/conversation_to_turns.py:213-224 | the fallback holds every message once: dated before undated, by stamp, then by id, in the order of the mapping where neither decides |
| MappingMessages.AllMessagesAreTold | scripts/conversation_to_turns.py:162-217 | one message for each node that has one, in the order of the mapping, under its own id and time or else the node's |
| MappingMessages.PathMessagesAreTold | scripts/conversation_to_turns.py:162-208 | one message for each node of the chain that has one, under its own id and time or else the node's |
| MappingMessages.GraphIsTold | scripts/conversation_to_turns.py:190-193 | the graph has exactly the entries of the mapping that are objects |
| RowConversion.CanonicalItems | scripts/conversation_to_turns.py:227-248 | items that are no object, or without role or text, are dropped; roles are normalised |
| RowConversion.TurnIds.NextTurnId | scripts/conversation_to_turns.py:427-432 | each call mints the id of the next number |
| RowConversion.ConvertRows | scripts/conversation_to_turns.py:420-489 | rows keep their order and share one counter of minted ids |
| RowConversion.RowConversionConserves | scripts/conversation_to_turns.py:434-489 | a row's observations and other-role texts come out over its turns, each once, in that order |
| RowConversion.RowHoldsTheSegmentation | scripts/conversation_to_turns.py:434-489 | a row with items comes out as the one segmentation of its dialogue, a turn a block, under its session, thread and, if alone, turn id |
| RowConversion.BridgeIdsDiffer | scripts/conversation_to_turns.py:429-432 | zero-padded ids of different numbers differ, beyond four digits too |
| RowConversion.MintedIdsAreDistinct | scripts/conversation_to_turns.py:427-489 | over all rows, exactly the turns without an id get a minted one, and no two are equal |
| RowConversion.IdsAreDistinctIffOwnIdsApart | scripts/conversation_to_turns.py:427-489 | all output ids differ if and only if the ids brought along differ and none equals one of those to be minted |
| RowConversion.LookalikeIdIsRepeated | scripts/conversation_to_turns.py:427-489 | a row that brings the id bridge-0001, followed by one without an id: two output turns with one id |
| RowContents.CanonicalIsTold | scripts/conversation_to_turns.py:227-248 | the items kept are those with role and text, in order, with text and time as they are; the four user roles become user, the seven assistant roles assistant |
| RowContents.RowTurnsAreDressed | scripts/conversation_to_turns.py:434-489 | each output turn of a row with items has the time of the first item that can date it, else the row's, and the asides that belong to it, after the row's own observations in the first turn |
| RowContents.PlainRowIsOneTurn | scripts/conversation_to_turns.py:447-487 | a row without items comes out as one turn with the row's texts, time, non-blank observations and ids |
| RowContents.RowsComeOutInOrder | scripts/conversation_to_turns.py:434-489 | the output is that of the rows, one after the other |
| RowContents.IdsAreMintedInOrder | scripts/conversation_to_turns.py:427-489 | the n-th turn without an id gets the n-th minted id |
| RowContents.BridgeIdIsTold | scripts/conversation_to_turns.py:429-432 | a minted id is "bridge-" and the number, padded to four digits and no further |
| Drain.CheckBefore | scripts/drain_capture_queue.py:134-143 | threshold, batch, time and latency checks in this order, each collaborator asked only when reached |
| Drain.CheckAfter | scripts/drain_capture_queue.py:157-161 | a hard stop is never hidden by reaching the goal in the same batch |
| Drain.RunDrain | scripts/drain_capture_queue.py:113-164 | the report is what the answers of the collaborators determine: totals are the sums of the batches run, no batch before the last stopped; DrainReasons says which reason that is |
| Drain.TotalsAreSums | scripts/drain_capture_queue.py:149-151 | each total is the sum of its own count over the completed batches |
| Drain.OneReport | scripts/drain_capture_queue.py:113-164 | the answers of the collaborators leave exactly one possible report |
| Drain.RunIsBounded | scripts/drain_capture_queue.py:134-161 | at most max_batches batches; every batch but the last left the queue over its limits without a stop |
| Drain.UnderThresholdIff | scripts/drain_capture_queue.py:80-111 | under_threshold is reported exactly when the last state is under both limits and the last batch was no hard stop |
| Drain.SoftBreakers | scripts/drain_capture_queue.py:82-100 | two soft timeouts in a row end the run, one alone never opens the breaker |
| DrainReasons.BatchReasons | scripts/drain_capture_queue.py:88-105 | worker_busy, breaker_open and run_failed are each reported exactly when the last batch says so and nothing before it in the precedence holds; a batch with more errors than its furthest stage ends as run_failed, and a timeout opens the breaker only after another |
| DrainReasons.HealthyReasons | scripts/drain_capture_queue.py:88-161 | daily_budget is reported exactly when the last batch deferred work, nothing before it in the precedence holds and the queue is over its limits; no_progress exactly when it moreover deferred nothing and did nothing |
| DrainReasons.BoundReasons | scripts/drain_capture_queue.py:133-147 | max_batches, max_minutes, latency_guard_skip and a batch that raises are each reported exactly when the run got past its last batch and nothing checked before holds |
| DrainReasons.EarlierBatchesGoOn | scripts/drain_capture_queue.py:133-162 | every batch before the last was healthy, left the queue over its limits and, unless it was a first timeout, deferred nothing and did something |
| DrainReasons.MinutesAreNearest | scripts/drain_capture_queue.py:163-164 | the minutes are the tenth nearest to the time between the first and the last reading of the clock |
| ChunkedEval.ChunkStore.LoadValidChunk | scripts/autoresearch_longmemeval_qa.py:81-111 | a chunk loads exactly with its recorded inputs (where they are asked for), window, status and judge, and loads as it is |
| ChunkedEval.ChunkStore.RunChunk | scripts/autoresearch_longmemeval_qa.py:165-199 | retries up to max_attempts, archiving each failed chunk; the fingerprint is written only for a valid one |
| ChunkedEval.ChunkStore.Evaluate | scripts/autoresearch_longmemeval_qa.py:285-342 | one invocation over all chunks: the directory it leaves and its payload or first error, which ChunkedEvalPayload tells |
| ChunkedEval.Aggregate | scripts/autoresearch_longmemeval_qa.py:202-258 | the payload over the chunks, of which PayloadIsTrueToItsAnswers says what it counts, or the error for mismatched ids |
| ChunkedEvalPayload.PayloadIsTrueToItsAnswers | scripts/autoresearch_longmemeval_qa.py:202-258 | every success: `correct` is the number of correct answers, the accuracy their share of all, 1 exactly when all are; each type counts exactly its answers and the correct ones, untyped ones as "unknown"; answers and provenance are those of the chunks in order, tokens and seconds their sums; the answers are to the questions of the job |
| ChunkedEvalPayload.OutcomeIsTold | scripts/autoresearch_longmemeval_qa.py:285-342 | an invocation succeeds exactly when the ids are distinct, there are some, and every window has a reusable chunk or an attempt that lands; it reports those chunks, and the first window that is not had fails it |
| ChunkedEvalPayload.FirstLandingDecides | scripts/autoresearch_longmemeval_qa.py:165-199 | a chunk fails exactly when every attempt exits with an error, cannot record its inputs or leaves no complete answer file; otherwise it is what the first other attempt leaves |
| ChunkedEvalPayload.ChunkIsRecorded | scripts/autoresearch_longmemeval_qa.py:157-199 | a window touches its own files only; when it is had they can be reused, when it is not no answer file is left |
| ChunkedEvalPayload.WindowsCutTheIds | scripts/autoresearch_longmemeval_qa.py:295-296 | the windows cut the ids in order into pieces of the chunk size, the last one possibly shorter, none empty |
| ChunkedEvalPayload.RerunIsFree | scripts/autoresearch_longmemeval_qa.py:285-342 | after a success the same job reports the same payload and changes no file, whatever its processes would do |
| ChunkedEvalTheorems.InvocationIsFresh | scripts/autoresearch_longmemeval_qa.py:285-342 | from any directory of true chunks, whatever failing processes leave behind, a success reports what the benchmark itself answers, and every invocation leaves such a directory |
| ChunkedEvalTheorems.ResumeEqualsFresh | scripts/autoresearch_longmemeval_qa.py:165-258 | after any two histories of runs, two successes of one job give the same payload |
| ChunkedEvalTheorems.AggregationNeverMismatches | scripts/autoresearch_longmemeval_qa.py:227-229 | the chunk windows concatenate to the data set, so the id check never fires |
| ChunkedEvalTheorems.BreakdownAddsUp | scripts/autoresearch_longmemeval_qa.py:215-239 | per-type counts and corrects sum to the totals |
| ChunkedEvalTheorems.ChunkIsTrueIffSafe | scripts/autoresearch_longmemeval_qa.py:165-199 | even with silent exits with 0, a chunk that runs is the benchmark's if and only if no stale file would pass for its window |
| ChunkedEvalTheorems.FreshIffSafe | scripts/autoresearch_longmemeval_qa.py:285-342 | even with silent exits with 0, every success of a job collects the benchmark's chunks if and only if no stale file would pass for a window of the job, or the job cannot finish |
| ChunkedEvalTheorems.ReportsFreshIffSafe | scripts/autoresearch_longmemeval_qa.py:285-342 | the same for the payloads of whole invocations; a job with a repeated question id reports nothing |
| ChunkedEvalTheorems.SafeInvocationIsFresh | scripts/autoresearch_longmemeval_qa.py:285-342 | from a directory without such files, a success reports what the benchmark itself answers, silent exits included |
| ChunkedEvalTheorems.SilentSuccessAdoptsStaleAnswers | scripts/autoresearch_longmemeval_qa.py:176-190 | an instance of a stale file: an exit with 0 that wrote nothing makes the next revision report the answers of the one before |
| Pareto.Evaluate | scripts/eval_steward_pareto.py:112-126 | counts and rates of one gate over the cases |
| Pareto.CountsSplitClasses | scripts/eval_steward_pareto.py:113-119 | whatever the gate, tp + fn and fp + tn are the class sizes |
| Pareto.GateIsMonotone | scripts/eval_steward_pareto.py:112-126 | raising either threshold never raises tp, fp or a rate |
| Pareto.FourDigitsAreMonotone | scripts/eval_steward_pareto.py:124-125 | the rounding of the rates to four digits meets the hypothesis of the rate comparison |
| Pareto.ParetoFrontier | scripts/eval_steward_pareto.py:129-146 | the nested loops keep the points that no swept point dominates, sorted |
| Pareto.FrontierCovers | scripts/eval_steward_pareto.py:129-146 | every swept point is weakly dominated by a frontier point |
| Pareto.FrontierIsStaircase | scripts/eval_steward_pareto.py:145-146 | along the frontier both rates rise strictly, or both stay |
| Pareto.RecommendationIsOptimal | scripts/eval_steward_pareto.py:149-152 | within the cap the pick promotes most among all swept points, ties by least false promotion |
| Pareto.RecommendationIsNearest | scripts/eval_steward_pareto.py:153-153 | with no point within the cap, the pick is nearest to it among all swept points |
| Pareto.FrontierDecides | scripts/eval_steward_pareto.py:149-153 | some swept point is within the cap if and only if some frontier point is |
| Pareto.SweepRecommendsTheBest | scripts/eval_steward_pareto.py:187-192 | no gate of the 123 swept that is within the cap promotes more than the recommended one |
| ParetoRates.RatesAreShares | scripts/eval_steward_pareto.py:112-126 | the promotion rate is the rounded share of the positive cases that pass both thresholds, the false promotion rate that of the negative ones |
| ParetoRates.FourDigitsAreNearest | scripts/eval_steward_pareto.py:124-125 | a rate is the ten-thousandth nearest to the share |
| ParetoRates.FrontierIsTold | scripts/eval_steward_pareto.py:129-146 | a swept point is on the frontier exactly when no swept point is as good at both rates and better at one |
| ParetoRates.NearestIsLeastFalse | scripts/eval_steward_pareto.py:153-153 | with no point within the cap, the pick has the fewest false promotions, and of those the most promotions |
| ParetoRates.TiesGoToTheFirst | scripts/eval_steward_pareto.py:145-153 | among gates with the same rates the one swept first is recommended |
| ParetoRates.SweepIsTold | scripts/eval_steward_pareto.py:187-192 | citation thresholds 0 to 2, for each the score thresholds 0.40 to 0.80 in steps of 0.01 |
| Wilson.LowerIsBetweenZeroAndRatio | scripts/evaluate_capture_graph_quality.py:85-92 | the bound lies between 0 and the ratio, so the outer max never changes it |
| Wilson.LowerIsMonotone | scripts/evaluate_capture_graph_quality.py:85-92 | more correct answers out of as many never lower the bound |
| Wilson.PassIsLowerBound | scripts/evaluate_capture_graph_quality.py:75-106 | the pass verdict is decided by the lower bound alone |
| Wilson.LowerSolvesTheWilsonEquation | scripts/evaluate_capture_graph_quality.py:85-92 | the bound L solves n (ratio - L)^2 = 1.96^2 L (1 - L), and is strictly below the ratio as soon as an answer is correct |
| Kappa.Shares | scripts/eval_index_vs_similarity.py:313-315 | observed agreement is at least the distance of pa + pb from 1, by counting |
| Kappa.RawKappaRange | scripts/eval_index_vs_similarity.py:308-317 | before rounding, kappa lies in [-1, 1], and is 1 exactly when all pairs agree |
| Kappa.KappaRange | scripts/eval_index_vs_similarity.py:308-317 | where defined, the rounded kappa lies in [-1, 1]; it reads 1 when all pairs agree, and below 40000 pairs only then |
| Kappa.ReadsOneIff | scripts/eval_index_vs_similarity.py:308-317 | the rounded kappa reads 1 if and only if 20000 times the disagreements out of n are no more than the crossed answers out of n * n |
| Kappa.OneMeansAgreementIffFew | scripts/eval_index_vs_similarity.py:308-317 | for lists of n pairs, reading 1 means that all agree if and only if n is below 40000 |
| Kappa.NearPerfectReadsOne | scripts/eval_index_vs_similarity.py:317-317 | for every n from 40000 on, a list of n pairs with one disagreement that reads 1 |
| Kappa.KappaUndefined | scripts/eval_index_vs_similarity.py:310-317 | kappa is undefined exactly for no pairs, or one and the same constant answer of both raters |
| Kappa.KappaIsSymmetric | scripts/eval_index_vs_similarity.py:308-317 | exchanging the raters changes nothing |
| Kappa.KappaInCounts | scripts/eval_index_vs_similarity.py:308-317 | 1 - kappa, times the f (n - s) + s (n - f) crossed answers, is n times the number of pairs that differ |
| Kappa.KappaIsNearest | scripts/eval_index_vs_similarity.py:317-317 | the score handed out is the ten-thousandth nearest to that |
| AveragePrecision.MapAtK | scripts/eval_bm25_sweep.py:213-224 | the loop computes the mean precision over the hits of the head |
| AveragePrecision.AverageRange | scripts/eval_bm25_sweep.py:213-224 | in [0, 1]; 1 exactly when there is a hit and no miss precedes one; 0 exactly when there is none |
| AveragePrecision.PromotionAtK | scripts/eval_bm25_sweep.py:213-224 | swapping a hit with the miss just before it raises the score at k exactly inside the head, or at its edge when the new hit lifts the mean; it lowers the score exactly at the edge when the hit drags the mean down |
| AveragePrecision.PromotionCanLower | scripts/eval_bm25_sweep.py:213-224 | labels and a k for which such a swap lowers the score from 1 to 5/6 |
| AveragePrecision.PrecisionAtK | scripts/eval_bm25_sweep.py:206-210 | the share of hits in the head, 0 for an empty one |
| AveragePrecision.PrecisionRange | scripts/eval_bm25_sweep.py:206-210 | in [0, 1]; 1 exactly without a miss, 0 exactly without a hit; a hit that moves up inside the head changes nothing |
| AveragePrecision.ScoresAreTold | scripts/eval_bm25_sweep.py:206-224 | average precision times the hits is the sum of the precisions at the ranks of the hits; precision times the length is the number of hits |
| Bm25.BuildCorpusStats | scripts/eval_bm25_sweep.py:126-152 | counts, mean length and document frequencies over the first row of each claim |
| Bm25.StatsAreSound | scripts/eval_bm25_sweep.py:126-152 | no term is in more documents than there are |
| Bm25.OneDocPerClaim | scripts/eval_bm25_sweep.py:138-143 | one document per distinct claim id |
| Bm25.ScoreDocument | scripts/eval_bm25_sweep.py:155-177 | the accumulator loop adds up the term scores, or fails where the arithmetic does |
| Bm25.IdfIsPositive | scripts/eval_bm25_sweep.py:170-174 | on sound statistics every idf is defined and positive |
| Bm25.WeightIsBounded | scripts/eval_bm25_sweep.py:174-176 | a matching term contributes more than 0 and less than (k1 + 1) * idf |
| Bm25.ScoreIsPositiveOnAMatch | scripts/eval_bm25_sweep.py:155-177 | the score is never undefined or negative, and positive exactly on a shared term |
| Bm25.MoreOccurrencesScoreHigher | scripts/eval_bm25_sweep.py:155-177 | at a fixed length, the document in which no query term is rarer scores no lower, and strictly higher exactly when one is more frequent (and there is a corpus) |
| Bm25Terms.DocsAreTold | scripts/eval_bm25_sweep.py:134-149 | the documents are the tokens of the first row of each claim, in order |
| Bm25Terms.StatsAreTold | scripts/eval_bm25_sweep.py:126-152 | the number of documents, their mean length, and for each term the number of documents it is in |
| Bm25Terms.RarerTermsWeighMore | scripts/eval_bm25_sweep.py:171-174 | the idf is log((N + 1) / (n + 1/2)), and strictly greater for a term in fewer documents |
| Bm25Terms.WeightIsTold | scripts/eval_bm25_sweep.py:175-176 | the weight times f + k1 * norm is idf * f * (k1 + 1) |
| Bm25Terms.NormIsTold | scripts/eval_bm25_sweep.py:165-175 | the norm is 1 at the mean length and moves by b times the relative excess |
| Bm25Terms.LongerDocumentsWeighLess | scripts/eval_bm25_sweep.py:175-176 | as many occurrences weigh strictly less in a longer document |
| Bm25Terms.ScoresAdd | scripts/eval_bm25_sweep.py:166-177 | the score is the sum over the query terms, repeated ones included |
| Percentile.NearestRank | scripts/agg_recall_latency.py:92-105 | the result is a sample that at least pct% do not exceed, and no smaller value has that |
| Percentile.ClampedRank | scripts/agg_recall_latency.py:104-105 | out of range the clamp gives the least or the greatest sample |
| Percentile.VariantsAgreeUpToAHundred | benchmarks/perf_smoke.py:42-47 | the unclamped variants agree on a non-empty sample if and only if pct <= 100 |
| EmailCursor.FetchRows | scripts/email_live_to_turns.py:172-266 | a cap below 1 is an error; the cursor passes all selected UIDs, refused ones included; the rows are sorted |
| EmailCursor.RowsAreNewestFirst | scripts/email_live_to_turns.py:262-265 | the rows handed out are those fetched, latest time first and then greatest id; rows alike in both stay in the order fetched |
| EmailCursor.MailsAreTold | scripts/email_live_to_turns.py:207-258 | one row for each UID whose reply holds a mail, in the order of the UIDs; the count is that of the replies that were not refused |
| EmailCursor.SelectedAreTheLargest | scripts/email_live_to_turns.py:203-205 | a poll attempts the largest listed UIDs above the cursor, as many as the cap allows, ascending |
| EmailCursor.CompleteExactlyWithinTheCap | scripts/email_live_to_turns.py:203-205 | a poll leaves nothing behind if and only if no more UIDs are new than its cap |
| EmailCursor.RunsAdvance | scripts/email_live_to_turns.py:175-261 | over any run of polls on any mailboxes the cursor never falls, and each attempt lies between the cursor before and after its poll |
| EmailCursor.NoUidInTwoPolls | scripts/email_live_to_turns.py:175-261 | no UID is attempted by two polls of a run |
| EmailCursor.SkippedIsLost | scripts/email_live_to_turns.py:203-205 | a new UID beyond the cap is never attempted later |
| EmailCursor.AttemptedNoOftenerThanListed | scripts/email_live_to_turns.py:175-261 | over a run a UID is attempted at most as often as one listing names it |
| EmailCursor.CursorIsTheTop | scripts/email_live_to_turns.py:203-260 | whatever its cap, a poll moves the cursor to the largest new UID listed |
| EmailCursor.PollOnceIffListedOnce | scripts/email_live_to_turns.py:193-205 | a poll attempts nothing twice, whatever its cap, if and only if the SEARCH answer names no new UID twice |
| EmailCursor.NeverTwiceIffListedOnce | scripts/email_live_to_turns.py:175-261 | no UID is attempted twice in a run, whatever the caps, if and only if no answer names twice a UID above all those named before |
| EmailCursor.RepeatedListingIsFetchedTwice | scripts/email_live_to_turns.py:193-205 | an instance: a SEARCH answer that names a UID twice makes the poll fetch it twice |

## Left out

- Decoding: JSON parsing, `_content_to_text`, `_entry_text`, `_role_from_entry`, stripping and lower-casing of non-ASCII text; the models start from decoded records.
- Files, SQLite, subprocesses, IMAP connections and message parsing, command lines and printed reports.
- `_candidate_session_files` (`scripts/codex_live_to_turns.py:98-109`): a file that drops out of the `max_files` window loses its cursor; the schedules here keep every file seen. Half-written lines are not modelled either.
- `convert_rows` of `scripts/codex_live_to_turns.py:379-411`: it renames the fields of each row and adds a digest, one row at a time, with no state between rows.
- `_items_from_row` (`scripts/conversation_to_turns.py:339-354`): which field of a row supplies its items is decided before the model, by a fixed order of fields.
- The validator's `metrics` block and the detail texts of its checks.
- The number formatting inside `_timestamp_ordering_key` (`scripts/conversation_to_turns.py:175-182`) is a parameter of the sort.
- ResumeEqualsFresh: covers runs in which every chunk call returns or raises; a crash between writing a chunk and its fingerprint is not modelled.
- Aggregate: keeps the chunks themselves where the script keeps their SHA-256.
- `disambiguate`, `parse_labels`, `consensus` and `strategy_metrics` of `scripts/eval_index_vs_similarity.py`, `_score_row` and `_evaluate` of `scripts/eval_bm25_sweep.py`: label parsing, per-strategy counters and weighted sums, which nothing else here depends on.
- `scripts/claude_to_turns.py`: the same pairing as `conversation_to_turns.py`.
- `scripts/atlas_autoloop.py` and the `memorymaster/*.py` import shims.
- Floating-point rounding of sums, products and quotients.
