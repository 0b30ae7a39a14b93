# Soong Agent core: a Dafny model and its proofs

This project models the stateful core of `src/agent_core` and proves what it promises.

* **Task engine** (`tasks/*`): a task is a DAG of steps that move through pending, ready, claimed, running, blocked,
  completed, failed and cancelled. The service edits a private copy of a task, appends the events of the change to a
  write-ahead log and only then commits the copy; recovery rebuilds the task from the log with different code, which
  never sees the demotions from ready to pending because they are not logged. The log is a text file of JSON lines.
* **Unified-diff applier** (`tools/builtin_code/patching.py`), with a printer of edit scripts as its partner.
* **Tool-call scheduler** (`api/runtime_helpers/tools.py`): concurrent read-only batches between writes.
* **Context budgets** (`api/runtime_helpers/context.py`): the message trimmer and the system-block budget.
* **Conversation tree** (`storage/sqlite.py`): append-only node tables, path walking and forking.
* **Memory extraction** (`memory/extraction.py`): writing several files or none, and the frontmatter block.
* **Streamed tool calls** (`providers/openai_compatible/stream.py`).

`dafny verify dfyconfig.toml` checks everything.

## Layout

`DependencyGraph` is the cycle search. `TaskModel` has tasks, well-formedness (`WF`) and promotion; `TaskReplay` the
recovery interpreter and the relation `Agrees` it preserves; `TaskOperations` every service operation as a function
from a task to an outcome (rejected, or the next task and the events logged). `TaskSafety`, `TaskBatches`,
`TaskScheduling` and `TaskProgress` prove properties of single operations; `TaskEdits` says what edits do to the graph
of a task and `TaskEffects` what every call and every logged event does field by field; `TaskReopens` reads the
conditions on a batch off its operations. `TaskRuns` defines whole runs with failed appends, restarts and crashes;
`TaskDrift` follows replay along a batch it does not recover, and `TaskTrust` has the main theorems over runs.
`TaskClaims` proves unique claims over runs, and `TaskWitnesses` has the runs that show what the conditions are for.
`TaskService` and `TaskRecovery` are the imperative program, each method proved to compute exactly its function, and
`TaskLogText` is the text of the log. `EditScripts`, `UnifiedDiff` and `PatchRoundTrip` are the patcher, and
`DiffLines` is about the lines of any diff; `ToolScheduler`, `ContextBudget`, `SystemBudget`, `ToolStream`,
`ToolNames`, `Frontmatter` and `MemoryJob` are one component each, `MemoryCandidates` is what the memory job prepares
and `MemoryFields` what that says; `NodeTree` and `NodeStore` are the conversation tree. `Text` and `Wrappers` are
shared helpers.

## How to read the main results

* A run (`TaskRuns.Run`) is any list of actions from a created record: a call whose append may fail, or a restart on the
  first `kept` lines of the log. `kept` smaller than the log is a crash, possibly in the middle of a batch.
* No run is excluded from the theorems about recovery. `TaskTrust.TrustOf` follows from the calls what the log is
  worth, and the theorems say it is: exact, replay gives memory; drifting, replay gives a well-formed task until the
  task ends, but not memory; unreadable, replay fails; revived, memory itself was rebuilt from a log that had drifted
  to the end of its task. A batch of DAG operations whose reopenings survive (`TaskReopens.ReopensSettle`) makes a
  readable log exact again, since it logs the whole task; one that ends without a step it had reopened
  (`TaskReopens.BreaksLog`) makes it unreadable; any other batch makes it drift. A restart takes memory from the log,
  so the log is exact or revived afterwards.
* One thing the code does not enforce is a condition: under the owner discipline (`TaskRuns.OwnersKept`) callers set a
  step running only while it is live (claimed or running). Unique claims and the owners of recovered steps need it.
* The graph of a task (`TaskEdits.Graph`) has the ids in order, a status, a required flag, an owner and a lease for
  each, and a set of edges from steps to what they depend on. Edits and promotion are described on the graph; a list
  of steps shows a graph when it says the same (`TaskEdits.Shows`).
* Whether reopenings survive is decided by the operations (`TaskReopens.ReopensSettle`): of the operations on a step
  that was blocked or failed and is reopened, the last one that adds, deletes or cancels it must be an addition that
  leaves it waiting, or there must be none; and the last edit of the status of a reopened task must not block it.
* A script of hunks is printed as the diff utility's unified format (IEEE Std 1003.1) and applied. Its target is what
  the format means; its landing is where the applier's cursors end up. It is settled when every hunk without old lines
  can step back one line and inserts only copies of that line, and printable when no changed line prints as a file
  header.
* `Agrees` ignores the owner of a step that is not live: the service clears the owner of a lost worker's step, while the
  logged failure event does not say so and replay keeps it.

## What the proofs found

* A batch that reopens a blocked or failed step and deletes it makes the log unreadable; one that reopens a blocked task
  and blocks it again is recovered as unblocked (`ReopenThenDeleteBreaksLog`, `ReopenThenBlockLosesBlock`). The exact
  conditions on the operations are `BatchBreaksLogIff` and `BatchRecoveredIff`. Cancelling and deleting nothing after a
  reopening is not enough: a batch may cancel a step, delete it, add it again as running and then reopen it
  (`ReAddedStepLosesReopening`); it is enough not to add a reopened step either (`KeptReopensSurvive`).
* Apart from a log that had drifted to the end of its task, every prefix of a log that replays gives a well-formed
  task (`TaskTrust.CrashConsistency`). That one case is real: after reopening and cancelling a step in one batch and
  completing the task, a restart brings back a completed task with a ready step (`RestartRevivesCancelledStep`).
* Log lines are split at every line boundary of `str.splitlines`, and JSON leaves three of them unescaped: a task with
  U+0085, U+2028 or U+2029 in any text of its events is accepted and logged, and its log cannot be read again
  (`TaskLogText.LogReadsBackIff`, and `SeparatorHidesLog` for one title).
* A completed step keeps its owner, so setting it running again can give one run two live steps
  (`RerunHoldsTwoLiveSteps`); exactly when is `RunningKeepsClaimsIff`.
* A hunk without old lines is applied one line early, because a range of count zero names the line before it
  (`InsertionLandsEarly`); which scripts are unaffected is `PatchRoundTripIff`. A removed line starting with `-- ` or an
  inserted one starting with `++ ` prints as a second file header, so the patch is refused (`PrintedApplies`, and
  `LookalikeRefused` for one such patch).
* Two memories that differ only in list entries (tags, source nodes) count as duplicates, because the parser reads every
  list as empty: a memory sent again with new tags keeps the old ones, unless its trimmed body holds a carriage return
  (`NewTagsAreLostIff`, `NewTagIsLost`).
* Reading a file translates carriage returns, with or without a line feed, to line feeds; writing one translates
  nothing. So a memory whose trimmed body holds a carriage return never matches its file and is written again on every
  run (`SecondRunWritesNothingIff`, `ReturnIsRewritten`), and a rollback restores a file that held one with its line
  ends translated (`AsBeforeIff`).
* A write that breaks off half-way is not undone, because a file is remembered only once its write has returned
  (`MemoryJob.Job.Apply`).
* A known tool whose name has an underscore before a dot or before another underscore does not come back from its
  provider name (`ToolNames.CanonicalBackIff`, and `UnderscoreMoves` for one pair of names that are confused).
* A memory written without a session is stamped with the word None, which later runs carry over like a session id
  (`MemoryCandidates.SecondRunWritesNothingIff` covers it).

## Model

| member | source | states |
|---|---|---|
| `DependencyGraph.ValidateNoDependencyCycle` | src/agent_core/tasks/operations.py:4-24 | true exactly when the edge list has no directed cycle of any length, self-loops included; the search ends on every input |
| `DependencyGraph.CycleSearch.Dfs` | src/agent_core/tasks/operations.py:11-22 | a failing visit exposes a genuine cycle; a successful one visits the node, forgets nothing and leaves the chain of ancestors as it was |
| `DependencyGraph.TopologicalHasNoCycle` | src/agent_core/tasks/operations.py:4-24 | the order in which the search finishes nodes rules out every cycle |
| `DependencyGraph.AcyclicHasSink` | src/agent_core/tasks/state.py:79-88 | in a cycle-free graph every non-empty finite set has a member that depends on nothing in the set |
| `TaskService.ValidateSteps` | src/agent_core/tasks/helpers.py:136-148 | accepts exactly distinct ids with dependencies on existing steps and no cycle |
| `TaskModel.PromoteReadyLaws` | src/agent_core/tasks/state.py:79-88 | promotion makes a waiting step ready exactly when its dependencies are completed, both ways, and touches nothing else that counts |
| `TaskModel.PromoteFixpoint` | src/agent_core/tasks/state.py:79-96 | promotion is idle exactly on tasks whose waiting steps and status are already right |
| `TaskModel.ChangeKeepsWF` | src/agent_core/tasks/service.py:358-440 | replacing one step by another of the same shape, leased only when live, and promoting keeps a task well formed |
| `TaskReplay.ReplayAgrees` | src/agent_core/tasks/replay.py:10-115 | replay cannot tell agreeing tasks apart: it fails on both or neither, and the results agree |
| `TaskReplay.TracksReplays` | src/agent_core/tasks/service.py:72-112 | a batch of events that tracks rebuilds a good task at every non-empty prefix and its end at the whole |
| `TaskRecovery.Replayer.Replay` | src/agent_core/tasks/replay.py:10-115 | each event's in-place assignments compute its replay, and fail exactly on a missing step |
| `TaskRecovery.ReplayWal` | src/agent_core/tasks/service.py:72-112 | registers a record exactly when the log rebuilds a task, with that task, the log and the largest sequence number |
| `TaskService.PromoteTask` | src/agent_core/tasks/state.py:79-131 | the two promotion loops and the entries that report them |
| `TaskService.TaskDraft.Apply` | src/agent_core/tasks/state.py:17-76 | one edit of the draft in place, or an error that leaves it alone |
| `TaskService.EditBatch` | src/agent_core/tasks/service.py:203-216 | the batch loop with the reopenings it records, taken from the steps as they were before the batch |
| `TaskService.TaskRecord.AppendMany` | src/agent_core/tasks/records.py:39-74 | numbers and writes the entries and advances the counter, or changes nothing when the append fails |
| `TaskService.TaskRecord.CreateTask` | src/agent_core/tasks/service.py:114-170 | creates exactly the record the operation describes, or none |
| `TaskService.TaskRecord.UpdateTask` | src/agent_core/tasks/service.py:193-284 | edits a copy, validates, promotes, logs and commits exactly the operation's outcome; a rejected or unlogged call changes nothing |
| `TaskService.TaskRecord.ClaimStep` | src/agent_core/tasks/service.py:309-356 | as above for claims |
| `TaskService.TaskRecord.UpdateStep` | src/agent_core/tasks/service.py:358-440 | as above for status reports |
| `TaskService.TaskRecord.CompleteTask` | src/agent_core/tasks/service.py:442-489 | as above for completion |
| `TaskService.TaskRecord.TerminateTask` | src/agent_core/tasks/service.py:491-547 | as above for failing and cancelling, with the runs to stop |
| `TaskService.TaskRecord.ReconcileLeases` | src/agent_core/tasks/service.py:549-603 | as above for expired leases; nothing is appended when none expired |
| `TaskService.TaskRecord.FailUnclosedWorkerStep` | src/agent_core/tasks/service.py:605-641 | as above for the first live step of a lost worker |
| `TaskEdits.OperationOnGraph` | src/agent_core/tasks/state.py:17-76 | an edit is taken exactly when it is allowed on the graph, and leaves what it makes of the graph: adding a dependency adds one edge, removing it removes exactly that edge, new dependencies replace the edges of their step, a new step comes last with its own edges, a deleted one is cut out of the order with the edges from it, and nothing else changes |
| `TaskEdits.BatchOnGraph` | src/agent_core/tasks/service.py:203-216 | a batch goes through exactly when its edits are allowed one after the other and every reopened step was there before, and leaves the graph they make |
| `TaskEdits.PromoteOnGraph` | src/agent_core/tasks/state.py:79-96 | promotion makes a waiting step ready exactly when every edge from it leads to a completed step, and starts a pending task exactly when some step is ready, claimed or running |
| `TaskEdits.UpdateOnGraph` | src/agent_core/tasks/service.py:193-284 | a batch is accepted exactly when the task is not finished, the batch goes through on the graph and the graph it leaves is closed and acyclic; the task is then that graph promoted, with the steps without edges as roots, in order |
| `TaskEdits.CreateOnGraph` | src/agent_core/tasks/service.py:125-144 | creating a task is adding its steps to an empty graph one after the other, under the same conditions |
| `TaskEffects.ReportExact` | src/agent_core/tasks/service.py:358-440 | when a report is refused, exactly; else the step has the reported status, a new lease exactly when running and no owner exactly when blocked, the log says so, and every other step moves at most between pending and ready |
| `TaskEffects.ClaimExact` | src/agent_core/tasks/service.py:309-356 | when a claim is refused, exactly; else the step is claimed with this owner and lease, and nothing else changes |
| `TaskEffects.LostWorkerExact` | src/agent_core/tasks/service.py:605-641 | the first claimed or running step of the run fails without owner and lease, or nothing changes when there is none or the task is finished |
| `TaskEffects.CompleteExact` | src/agent_core/tasks/service.py:442-489 | completion is accepted exactly when the task is not finished, no step is claimed or running and all required ones are completed; the other open steps are cancelled, and the log lists exactly them, in order |
| `TaskEffects.TerminateExact` | src/agent_core/tasks/service.py:491-547 | refused exactly for a finished task; failing fails and cancelling cancels the task and its open steps, which lose owner and lease, and the log lists exactly them, in order |
| `TaskEffects.ReconcileLogged` | src/agent_core/tasks/service.py:549-603 | nothing happens unless a claimed or running step has a lease at or before the time; else exactly those steps are freed, logged in order, and the task is promoted |
| `TaskEffects.PromotionsLogged` | src/agent_core/tasks/state.py:111-131 | the log says of exactly the steps that went from pending to ready that they did, and of the task that it started exactly when it did |
| `TaskEffects.StepEventExact` | src/agent_core/tasks/replay.py:60-113 | replaying a step event fails exactly on a missing step, and gives the step the status, owner and lease that the event stands for |
| `TaskEffects.TaskEventExact` | src/agent_core/tasks/replay.py:19-32 | replaying a snapshot gives the task it holds; a start or a reopening sets the status and promotes no more than waiting steps |
| `TaskEffects.EndEventExact` | src/agent_core/tasks/replay.py:33-59 | replaying the end of a task fails exactly on a missing step, and settles exactly the steps it lists |
| `TaskSafety.ClaimFaithful` | src/agent_core/tasks/service.py:309-356 | a claim keeps well-formedness and unique claims, and its events replay to the task it leaves |
| `TaskSafety.UpdateStepFaithful` | src/agent_core/tasks/service.py:358-440 | so does a status report, although demotions it causes are not logged |
| `TaskSafety.CompleteFaithful` | src/agent_core/tasks/service.py:442-489 | so does completion, at every prefix of its events |
| `TaskSafety.TerminateFaithful` | src/agent_core/tasks/service.py:499-547 | so does termination, at every prefix of its events |
| `TaskSafety.ReconcileFaithful` | src/agent_core/tasks/service.py:549-603 | so does lease reconciliation, at every prefix of its events |
| `TaskSafety.FailUnclosedFaithful` | src/agent_core/tasks/service.py:605-641 | so does failing a lost worker's step, up to the owner replay keeps |
| `TaskBatches.CreateGood` | src/agent_core/tasks/service.py:114-170 | a created task is well formed and its first log lines rebuild it |
| `TaskBatches.UpdateGood` | src/agent_core/tasks/service.py:193-284 | every accepted batch leaves a closed acyclic DAG, promoted, with claims still unique |
| `TaskBatches.UpdateFaithful` | src/agent_core/tasks/service.py:228-283 | a batch whose reopenings survive replays to the task it leaves, at every prefix |
| `TaskBatches.BatchRecoveredIffReopensSurvive` | src/agent_core/tasks/service.py:238-266 | replaying an accepted batch rebuilds its task if and only if its reopenings survive to its end |
| `TaskBatches.BatchBreaksLogIffReopenedStepGone` | src/agent_core/tasks/replay.py:60-113 | an accepted batch makes the log unreadable if and only if it removed a step it had reopened |
| `TaskBatches.ReopenThenDeleteBreaksLog` | src/agent_core/tasks/service.py:203-216 | a concrete batch after which the log no longer replays |
| `TaskBatches.ReopenThenBlockLosesBlock` | src/agent_core/tasks/service.py:214-216 | a concrete batch whose block is lost in recovery |
| `TaskReopens.BatchRecoveredIff` | src/agent_core/tasks/service.py:203-266 | replaying an accepted batch rebuilds its task if and only if, for each step it reopens that was blocked or failed, the last addition, deletion or cancellation of that step leaves it waiting, and the last status edit does not block a reopened task |
| `TaskReopens.BatchBreaksLogIff` | src/agent_core/tasks/service.py:203-266 | an accepted batch makes the log unreadable if and only if it reopens a step that was blocked or failed and whose last addition or deletion in the batch is a deletion |
| `TaskReopens.KeptReopensSurvive` | src/agent_core/tasks/service.py:203-216 | it is enough to cancel, delete or block nothing after reopening it and to add no step that is reopened |
| `TaskReopens.ReAddedStepLosesReopening` | src/agent_core/tasks/service.py:203-216 | a concrete batch that loses a reopening without cancelling or deleting anything after it |
| `TaskDrift.BatchCrashSafeIff` | src/agent_core/tasks/service.py:228-283 | every non-empty prefix of the events of an accepted batch, replayed from any rebuilt task, gives a well-formed task if and only if the batch does not end without a step it had reopened from blocked or failed |
| `TaskTrust.RunHolds` | src/agent_core/tasks/service.py:72-641 | the invariant over every run: the log is worth what its kind of trust says, and it replays if and only if it is not unreadable |
| `TaskTrust.RecoveryRefinement` | src/agent_core/tasks/service.py:72-112 | after any run whose log is exact or revived, replaying it gives the live task: status, roots, steps in order, dependencies, step status and lease, and under the owner discipline the owner of every live step |
| `TaskTrust.ReadableIff` | src/agent_core/tasks/replay.py:60-113 | after any run the log replays if and only if, since the last restart that rebuilt memory, no accepted batch ended without a step it had reopened |
| `TaskTrust.CrashConsistency` | src/agent_core/tasks/replay.py:60-113 | after any run every non-empty prefix of the log, cut anywhere, that replays gives a well-formed task, but for the whole log of a finished task that had drifted; and every prefix of a readable log replays |
| `TaskTrust.ReachableGood` | src/agent_core/tasks/service.py:193-641 | every reachable task is well formed, whatever batches and reports were sent and wherever the log was cut, unless memory was rebuilt from a log that had drifted to the end of its task |
| `TaskTrust.CallsKeepGood` | src/agent_core/tasks/service.py:193-641 | so without restarts every reachable task is well formed |
| `TaskTrust.TerminalSafety` | src/agent_core/tasks/service.py:442-547 | so a finished task has only finished steps, and a completed one has all its required steps completed |
| `TaskTrust.CarefulRunsRecover` | src/agent_core/tasks/service.py:72-112 | if every batch cancels, deletes and blocks nothing after reopening it and adds no step it reopens, every run under the owner discipline is recovered, and its log may be cut at any line |
| `TaskRuns.LogNumbering` | src/agent_core/tasks/records.py:39-74 | over any calls, failed appends, restarts and crashes whatever, the sequence numbers are exactly 1..n and no event id repeats |
| `TaskRuns.TerminalFrozen` | src/agent_core/tasks/state.py:99-107 | once a record is completed, failed or cancelled no sequence of calls changes its task, log or counter |
| `TaskLogText.WrittenAppend` | src/agent_core/storage/task_wal.py:35-43 | batches appended one after the other leave the text that one batch of all their events would |
| `TaskLogText.DumpOneLine` | src/agent_core/storage/task_wal.py:40 | a value printed without escaping what is not ASCII is on one line if and only if none of its texts and keys holds U+0085, U+2028 or U+2029 |
| `TaskLogText.DumpLeads` | src/agent_core/storage/task_wal.py:40 | it breaks lines only inside of strings and leaves none open |
| `TaskLogText.SplitsBackIff` | src/agent_core/tasks/service.py:78 | splitting a written log, read back from its file, gives the lines that were written if and only if no value holds such a character |
| `TaskLogText.LogReadsBackIff` | src/agent_core/tasks/service.py:78-81 | reading a written log line by line gives all its values when none holds such a character, and fails otherwise, with any decoder that inverts the printing and takes no text that ends inside a string |
| `TaskLogText.SeparatorHidesLog` | src/agent_core/tasks/service.py:66-81 | the same for one event with a line separator in a title |
| `TaskWitnesses.RerunHoldsTwoLiveSteps` | src/agent_core/tasks/service.py:358-440 | a concrete run of claims and reports after which one run holds two live steps |
| `TaskWitnesses.RestartRevivesCancelledStep` | src/agent_core/tasks/service.py:72-112 | a concrete run whose completed task has a ready step after a restart |
| `TaskScheduling.RunningKeepsClaimsIff` | src/agent_core/tasks/service.py:380-383 | setting a step running keeps claims unique if and only if it was live, has no owner, or its owner's run holds nothing else |
| `TaskScheduling.LostWorkerHoldsNothing` | src/agent_core/tasks/service.py:605-641 | although it stops at the first match, a lost run owns no live step afterwards |
| `TaskClaims.UniqueLiveClaims` | src/agent_core/tasks/service.py:309-641 | under the owner discipline alone each run owns at most one live step in every reachable task, whatever batches were sent and wherever restarts cut the log |
| `TaskClaims.LostWorkerCleared` | src/agent_core/tasks/service.py:605-641 | so in every such unfinished task, failing a lost run's step leaves it no live step |
| `TaskScheduling.ReconcileExact` | src/agent_core/tasks/service.py:549-603 | no live step keeps a lease at or before `now`, other live steps are untouched, freed steps are ready exactly by their dependencies, and a second time appends nothing |
| `TaskProgress.DependencyOrder` | src/agent_core/tasks/state.py:79-88 | from pending steps, under orderly calls, failed appends, restarts and crashes, every live or completed step has all dependencies completed in every reachable state and in what every non-empty prefix of the log rebuilds, and a call completes only what could be completed before it |
| `TaskProgress.SomeStepCanMove` | src/agent_core/tasks/state.py:79-96 | with no step blocked, failed or cancelled, an uncompleted task has a ready or live step |
| `TaskProgress.CanBeCompleted` | src/agent_core/tasks/service.py:309-489 | from any such unblocked task at most two accepted calls per uncompleted step lead to a task that `complete_task` accepts |
| `UnifiedDiff.ApplyHunks` | src/agent_core/tools/builtin_code/patching.py:13-54 | the nested loops compute the line-by-line meaning of the diff, with the same errors |
| `UnifiedDiff.ApplySimpleUnifiedDiff` | src/agent_core/tools/builtin_code/patching.py:9-73 | the path check and then the loops |
| `PatchRoundTrip.PrintedPathValid` | src/agent_core/tools/builtin_code/patching.py:57-84 | a printed diff passes the path check exactly when no changed line prints as a file header |
| `PatchRoundTrip.PrintedApplies` | src/agent_core/tools/builtin_code/patching.py:9-54 | applying any printed script to any file: refused exactly when it changes nothing, has a look-alike header, or some hunk with old lines does not find them where its header points; else its landing and the exact number of added plus removed lines |
| `PatchRoundTrip.PatchRoundTripIff` | src/agent_core/tools/builtin_code/patching.py:23-29 | print then apply gives the script's target and count if and only if it is printable, changes something and is settled |
| `PatchRoundTrip.UndoRoundTripIff` | src/agent_core/tools/builtin_code/patching.py:9-54 | applying the inverted script to the target restores the original under exactly the same condition on the inverse |
| `PatchRoundTrip.ThereAndBack` | src/agent_core/tools/builtin_code/patching.py:9-54 | with an old and a new line in every hunk, patching and patching back are exact |
| `PatchRoundTrip.InsertionLandsEarly` | src/agent_core/tools/builtin_code/patching.py:27-29 | a concrete insertion after line 1 that lands before it |
| `PatchRoundTrip.LookalikeRefused` | src/agent_core/tools/builtin_code/patching.py:57-84 | a concrete matching patch that is refused because a removed line prints as a file header |
| `PatchRoundTrip.StaleContextRefused` | src/agent_core/tools/builtin_code/patching.py:35-37 | a concrete patch that is refused because its context is not the file's |
| `DiffLines.SilentAnywhere` | src/agent_core/tools/builtin_code/patching.py:31-50 | a line that is no hunk header and has none of the three markers makes no difference, wherever it stands in any diff |
| `DiffLines.PrefaceSkipped` | src/agent_core/tools/builtin_code/patching.py:17-21 | neither does anything before the first hunk header |
| `DiffLines.ValidPathIff` | src/agent_core/tools/builtin_code/patching.py:57-73 | any diff passes the path check exactly when no line announces a rename, creation, deletion or binary patch, there is one file header of each kind or none at all, and all name the target |
| `DiffLines.HeaderPathExact` | src/agent_core/tools/builtin_code/patching.py:76-84 | the path in a file header ends at the first blank or tab and has lost its side letter |
| `DiffLines.PatchedMeans` | src/agent_core/tools/builtin_code/patching.py:9-54 | when any diff patches any file, the path check has passed, every hunk header could be read and something was changed |
| `EditScripts.LandsOnTargetIff` | src/agent_core/tools/builtin_code/patching.py:27-53 | where the cursors end up is the script's target if and only if every hunk without old lines only repeats the line it jumps over |
| `EditScripts.InverseMatches` | src/agent_core/tools/builtin_code/patching.py:9-54 | the inverse of a matching script matches its target and leads back to the original |
| `ToolScheduler.Scheduler.Run` | src/agent_core/api/runtime_helpers/tools.py:15-39 | for every interleaving inside the batches, results and final state are those of the sequential run cut after the first failing write, in call order, and no step crosses a write |
| `ToolScheduler.Scheduler.RunBatch` | src/agent_core/api/runtime_helpers/tools.py:20-25 | a batch under any interleaving leaves the shared state alone and gives each call's own result |
| `ToolScheduler.ReadOnlyIff` | src/agent_core/api/runtime_helpers/tools.py:16-29 | a call is read-only exactly when the last definition of its name has neither write permission nor the tag for writing; without a definition it is a write |
| `ToolScheduler.Tools.SequentialExact` | src/agent_core/api/runtime_helpers/tools.py:15-39 | the sequential run gives every call the state its predecessor left and stops right after the first failing write, whose result is the last one |
| `ToolScheduler.Tools.CutRunUnique` | src/agent_core/api/runtime_helpers/tools.py:15-39 | that determines its results and all its states |
| `ContextBudget.ApplyContextBudget` | src/agent_core/api/runtime_helpers/context.py:12-70 | a configured budget is taken as it is; without one, what is left fits the model window together with system and output tokens unless the budget is zero or the report says too long, and nothing is trimmed when everything fits; the backward loop computes the greedy selection with its trimmed node ids and its token counts |
| `ContextBudget.ProtectedMessageSuffixStart` | src/agent_core/api/runtime_helpers/context.py:99-104 | the last message that starts a user turn, or the last message |
| `ContextBudget.RetainedBound` | src/agent_core/api/runtime_helpers/context.py:36-54 | retained tokens are at most the larger of the budget and the protected suffix, plus the untrimmable messages before it |
| `ContextBudget.TokensConserved` | src/agent_core/api/runtime_helpers/context.py:36-54 | tokens before are tokens retained plus tokens dropped |
| `ContextBudget.RetainedPositions` | src/agent_core/api/runtime_helpers/context.py:36-54 | every message is kept or gone, in order; the newest is kept, and an older one exactly when it is protected, may not be trimmed, or fits beside what is kept of the newer ones |
| `ContextBudget.NodeIdsPositions` | src/agent_core/api/runtime_helpers/context.py:48-55 | the reported node ids are those of the dropped messages that have one, in their order |
| `ContextBudget.SecondPassChangesNothing` | src/agent_core/api/runtime_helpers/context.py:12-70 | trimming again with the same budget drops nothing |
| `SystemBudget.Rank` | src/agent_core/api/runtime_helpers/context.py:76 | the dynamic blocks by priority, highest first, equals in their own order |
| `SystemBudget.ApplySystemBlockBudget` | src/agent_core/api/runtime_helpers/context.py:73-96 | the ranked loop retains exactly the blocks that fit beside what it retained before them; order and static blocks are kept |
| `SystemBudget.LoadWithinBudget` | src/agent_core/api/runtime_helpers/context.py:80-92 | the dynamic blocks left stay within the budget |
| `SystemBudget.SecondPassTrimsNothing` | src/agent_core/api/runtime_helpers/context.py:73-96 | a second pass with the same budget trims nothing |
| `SystemBudget.GreedyByRank` | src/agent_core/api/runtime_helpers/context.py:80-92 | a dynamic block is retained exactly when it fits beside the retained blocks that outrank it |
| `SystemBudget.KeepPositions` | src/agent_core/api/runtime_helpers/context.py:93-95 | what is left are exactly the static blocks and the retained ones, in their own order |
| `SystemBudget.TrimmedPositions` | src/agent_core/api/runtime_helpers/context.py:80-91 | what is reported as trimmed are exactly the other dynamic blocks, in order of rank |
| `NodeTree.PathIffChain` | src/agent_core/storage/sqlite.py:468-483 | the path to a node is the one and only chain of rows from a root to it |
| `NodeTree.PathLaws` | src/agent_core/storage/sqlite.py:468-483 | it starts at a root, ends at the node, links by parent ids and has strictly increasing numbers |
| `NodeStore.Store.GetSessionNodePath` | src/agent_core/storage/sqlite.py:468-483 | the walk ends and returns that path |
| `NodeStore.Store.AddNode` | src/agent_core/storage/sqlite.py:192-255 | stores the node under the next number and makes it active on request |
| `NodeStore.AddExtendsPath` | src/agent_core/storage/sqlite.py:192-255 | a new node comes after all others and its path is its parent's path and itself |
| `NodeStore.AddExact` | src/agent_core/storage/sqlite.py:192-255 | the row holds what the caller gave under the next number, no other row changes, and the session's active node is the new one exactly when that was asked for |
| `NodeStore.Store.EnsureSession` | src/agent_core/storage/sqlite.py:32-47 | makes the session's row if there is none, and says whether it did |
| `NodeStore.Store.SetActiveNode` | src/agent_core/storage/sqlite.py:362-370 | names the session's active node, if the session has a row |
| `NodeStore.SessionExact` | src/agent_core/storage/sqlite.py:362-370 | making a session or naming its active node changes no table |
| `NodeStore.Store.ForkSessionFromPath` | src/agent_core/storage/sqlite.py:485-578 | the copying loop with its id map, or an error and no change when the session exists |
| `NodeStore.ForkCopiesPath` | src/agent_core/storage/sqlite.py:541-578 | the fork's active node has the source path node for node in role, type and content, under new ids and the new agent, outside any run, renumbered from one |
| `NodeStore.ForkElsewhere` | src/agent_core/storage/sqlite.py:485-578 | a fork changes no other session and no other table |
| `NodeStore.ForkRefused` | src/agent_core/storage/sqlite.py:499-501 | a fork into a session that exists, or of a node that does not, changes nothing that can be read |
| `NodeStore.PathsStay` | src/agent_core/storage/sqlite.py:192-578 | a node's path never changes under any later adds, switches and forks |
| `MemoryJob.Job.Apply` | src/agent_core/memory/extraction.py:50-113 | every planned write lands and the cursor moves; or, when a write fails at any index, the cursor stays, the files written before it hold what the job had read there, its own file what it left, and every other file is untouched, even if two writes go to one file |
| `MemoryJob.Job.RollBack` | src/agent_core/memory/extraction.py:96-101 | undoing the writes last first gives back at each of their paths what the job had read there, and changes no other |
| `MemoryJob.AsBeforeIff` | src/agent_core/memory/extraction.py:92-102 | after a failing write the files are exactly as before if and only if no file restored held a carriage return and the failing write left what was there |
| `MemoryJob.LastWriteLands` | src/agent_core/memory/extraction.py:91-95 | after success a file holds what the last write to it said |
| `MemoryJob.PlannedWrites` | src/agent_core/memory/extraction.py:69-87 | exactly the candidates that are not duplicates of what the job found are written |
| `MemoryJob.RepeatWritesNothingIff` | src/agent_core/memory/extraction.py:75-91 | after a run, equivalent contents for the same files, with the same catalog, write nothing at all if and only if the catalog holds no carriage return and every content is still equivalent once it is read back or was a duplicate already |
| `MemoryJob.EquivalentIff` | src/agent_core/memory/extraction.py:263-269 | printed memories are equivalent exactly when, stamps aside, they read back alike and their bodies trim alike |
| `MemoryJob.RestampedEquivalent` | src/agent_core/memory/extraction.py:263-269 | new stamps and new list items leave a memory equivalent |
| `MemoryCandidates.JobMemoryReads` | src/agent_core/memory/extraction.py:167-178 | of the eight entries the job prints every scalar reads back trimmed and every list empty, there are no others, and the body comes back exactly |
| `MemoryCandidates.PreparedAgain` | src/agent_core/memory/extraction.py:144-188 | preparing a candidate whose header is on file, at another time and with other tags and sources, carries over what the file says and gives an equivalent memory |
| `MemoryCandidates.ReadsBackEquivalentIff` | src/agent_core/memory/extraction.py:263-269 | a memory read back from its file keeps its header, and is equivalent to what was written if and only if its trimmed body holds no carriage return |
| `MemoryCandidates.SecondRunWritesNothingIff` | src/agent_core/memory/extraction.py:50-113 | a second run over the same candidates, whatever the time, the tags and the sources, and even in another session unless the first was blank, writes no memory and no catalog if and only if no trimmed body and no catalog holds a carriage return |
| `MemoryCandidates.NewTagsAreLostIff` | src/agent_core/memory/extraction.py:263-269 | a memory sent again with other tags would differ from its file, and is written if and only if its trimmed body holds a carriage return |
| `MemoryCandidates.NewTagIsLost` | src/agent_core/memory/extraction.py:75-78 | one concrete memory sent again with another tag keeps the old one |
| `MemoryCandidates.ReturnIsRewritten` | src/agent_core/memory/extraction.py:75-78 | one concrete memory with a carriage return in its body is written again when the very same candidate comes back |
| `MemoryFields.PreparedSays` | src/agent_core/memory/extraction.py:144-188 | a prepared memory reads back under the given id, prefixed once, its category and its summary, with the time of preparing, with time and session of creation from the file where that says so, and with the candidate's own body |
| `MemoryFields.CreatedOnce` | src/agent_core/memory/extraction.py:164-173 | a memory written again keeps the time of its first writing, whatever else has changed |
| `MemoryFields.ContentText` | src/agent_core/memory/extraction.py:167-178 | the text that is written, line for line, with the candidate's own tags and sources |
| `MemoryFields.ItemsText` | src/agent_core/memory/extraction.py:228-231 | a list prints one indented item a line |
| `MemoryFields.NothingBare` | src/agent_core/memory/extraction.py:272-277 | the body gives no summary exactly when no line says anything but heading marks |
| `MemoryFields.FirstContentLineExact` | src/agent_core/memory/extraction.py:272-277 | else it gives the first line that does, without its marks, up to 120 characters |
| `MemoryFields.TrimHashesExact` | src/agent_core/memory/extraction.py:274 | exactly the leading heading marks are stripped |
| `MemoryFields.BodyExact` | src/agent_core/memory/extraction.py:161 | the body is the content without a header block of its own and without white space in front |
| `MemoryFields.PlanReports` | src/agent_core/memory/extraction.py:65-87 | the job reports exactly what it creates, updates, leaves alone, ignores and changes, in the order of the candidates |
| `Frontmatter.PrintFrontmatter` | src/agent_core/memory/extraction.py:225-235 | the printing loops |
| `Frontmatter.ParseFrontmatter` | src/agent_core/memory/extraction.py:248-260 | the parsing loop |
| `Frontmatter.StripPrint` | src/agent_core/memory/extraction.py:238-245 | stripping printed frontmatter followed by any body returns that body exactly |
| `Frontmatter.ParsePrint` | src/agent_core/memory/extraction.py:248-260 | parsing it returns each scalar trimmed and each list empty, whatever the body contains |
| `Frontmatter.PrintInjective` | src/agent_core/memory/extraction.py:225-235 | memories with different header lines or bodies print differently |
| `Frontmatter.MetadataExact` | src/agent_core/memory/extraction.py:254-260 | with different keys every key reads back as its own value and there are no others |
| `ToolStream.Accumulator.AddDelta` | src/agent_core/providers/openai_compatible/stream.py:16-25 | the entry's in-place updates extend its own call and no other |
| `ToolStream.Accumulator.ToolCalls` | src/agent_core/providers/openai_compatible/stream.py:27-44 | one finished call for every index, in increasing order of the indices |
| `ToolStream.AddAllGathers` | src/agent_core/providers/openai_compatible/stream.py:16-25 | each index ends up with the concatenation of its own pieces and its last non-empty id |
| `ToolStream.Confluence` | src/agent_core/providers/openai_compatible/stream.py:16-44 | streams with the same deltas at each index build the same calls |
| `ToolStream.PiecesMakeNoDifference` | src/agent_core/providers/openai_compatible/stream.py:19-25 | cutting a name or argument piece further changes nothing |
| `ToolStream.OneOrder` | src/agent_core/providers/openai_compatible/stream.py:29-29 | a set of indices has one increasing listing, so the list of calls is determined |
| `ToolStream.FinishedExact` | src/agent_core/providers/openai_compatible/stream.py:29-43 | a call keeps the id that came, or gets one that no call of another index gets; its tool is looked up by the name as it came; no argument text stands for the empty object |
| `ToolStream.Accumulator.Receive` | src/agent_core/providers/openai_compatible/stream.py:47-56 | a whole stream of deltas, added one by one |
| `ToolNames.CanonicalBackIff` | src/agent_core/providers/tool_mapping.py:4-12 | a known tool comes back from its provider name if and only if its name has no dot, or no known tool bears the provider name and no underscore of its own comes before another one or a dot |
| `ToolNames.ProviderNamesDiffer` | src/agent_core/providers/tool_mapping.py:4-5 | so two such tools never share a provider name |
| `ToolNames.UnderscoreMoves` | src/agent_core/providers/tool_mapping.py:8-12 | two concrete tools, one of which is called when the other is meant |

## Left out

- Titles, summaries, reasons, results, artifacts, step metadata and timestamps of tasks: log payloads carry them only for some events, so recovery does not restore them.
- Roles, worker scope, dispatch queries and error texts: a rejected call is one outcome that changes nothing.
- TaskRecovery.Replayer.Replay: results, artifacts and reasons are not modelled, nor the update event without a snapshot (see below).
- ReplayWal: one session's log as a list of events; no separate dictionary of finished records. How lines are split and read is in TaskLogText, for any JSON values.
- LogReadsBackIff: the JSON decoder is a function parameter; the digits of a number are its text, without NaN and the infinities.
- A restart that rebuilds no task, as on no lines at all: the program then registers nothing, or marks the record unavailable; the model leaves the record as it was.
- CreateTask: the refusals for a task id in use and for a log file that exists are not modelled.
- ClaimStep: the refusals for a role or a worker scope that does not match are not modelled.
- UpdateStep: the refusal for a worker that does not own the step is not modelled.
- ClaimExact: the refusals are those of the model, without the ones ClaimStep leaves out.
- ReportExact: the refusals are those of the model, without the one UpdateStep leaves out.
- Task lookup across sessions, the separate dictionary of finished records and unavailable logs: one record at a time is modelled; torn lines and undecodable bytes are not.
- Deep copies: task records, drafts and table rows are values in the fields of mutable objects, so aliasing between a record and a copy of it is not captured.
- Step statuses outside the known set, which input may name, are not modelled.
- Update events without a snapshot of the task, which replay would redo operation by operation; the service always logs the snapshot.
- The three events that end a task are one event with the final status.
- TerminalFrozen: ranges over calls; what a restart does to a finished record follows from RecoveryRefinement where the log is exact.
- DependencyOrder: batches that edit the DAG and reports on steps that are not live are excluded, because the code accepts them without asking for the dependencies.
- CanBeCompleted: shows that a schedule exists; it does not model who calls it.
- AddNode: metadata and token count of a row are not modelled.
- ForkSessionFromPath: the agent row and copied metadata are not modelled.
- Database and file mechanics: logs are sequences, tables and files are maps, files hold decodable text, a new node id is a parameter assumed unused. Text is written with the line ends of POSIX. A failing memory write may leave anything at its path, but a restore succeeds.
- The other tables of the session store (agents, runs, events, artifacts) and deleting a session.
- ApplySimpleUnifiedDiff: files and diffs are lists of newline-terminated lines; splitting text into lines, a last line without newline and resolving a header path against the target (`matches`) are not modelled; numbers in headers are ASCII.
- ApplySystemBlockBudget: blocks are told apart by position, token counts are natural numbers, and the report of a trimmed block is the block.
- Tokens: a quarter of the characters of a message's blocks, at least one; how blocks add up to characters is a number here.
- MemoryJob.Job.Apply: the job's loop takes the prepared operations and the catalog text as inputs; MemoryCandidates prepares the operations, and leaves open how the catalog is rendered from the other memories and the candidates' rows. Paths are a folder and a file name below the memory directory.
- MemoryCandidates.Prepare: the check that a path may be written is part of the failing write; parsing candidates from the model's answer is not modelled.
- MemoryCandidates.SecondRunWritesNothingIff: the fields, the session and the clock print on one line, and the kept candidates go to different files.
- PreparedSays: the fields, the session and the clock print on one line.
- CreatedOnce: so they do, and the time of the first writing is not blank.
- StripPrint: needs at least one entry, as the job always writes eight; with none the closing fence is too early to be seen.
- `int` reads ASCII digits only.
- Parsing argument text as JSON is a function parameter of the stream accumulator.
- Cancellation, permission prompts, hooks, providers, run queues and user interfaces.
