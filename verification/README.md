# Verified model of a local software-delivery control plane

The repository runs agents and tools under a control plane: clients register, hold task leases and
work on items; every service call leaves an event in a ledger; patches, plugin configuration and
documents of intent change only through reviewed plans. This project models the parts in which
state, undo and choice interact, and proves what holds across calls and across whole runs.

Code that changes things step by step is a class or a method with loops here, proved against a
function on values; the theorems are lemmas about those functions.

- **Swarm** (`SwarmTasks`, `SwarmRun`): the cycle search over visiting and visited sets, the rounds
  of the coordinator, and the loop that drives them.
- **Patch engine** (`Text`, `TextReading`, `Hunks`, `HunkHeaders`, `HunkWriting`, `UnifiedDiff`,
  `DiffReading`, `PatchApply`, `PatchUndo`, `DiffWorkflow`): the parser and the hunk applier for the
  format of POSIX.1-2017, `diff` utility, "Diff -u or -U Output Format", the journal, the approved-diff
  workflow over a map of files, and the patch that undoes a patch. As in the code, hunk line counts are
  ignored and only the old start is used.
- **Documents** (`Eip`, `EipDiff`, `EipReports`, `JsonDiff`, `JsonPaths`, `JsonReports`): the normal form
  and the recursive diff of JSON values.
- **Control plane** (`Events`, `ControlPlane`, `StaleRecovery`, `ControlPlaneRuns`,
  `LedgerAgreement`, `LeaseExclusion`, `Columns`, `OrphanedWork`, `Scheduling`, `Lifecycle`): each
  service call as a step on the tables and the ledger, and runs of such steps. `ServerStore`,
  `LeaseService`, `WorkItemService`, `EventService` and `ClientRegistry` are the classes, whose methods
  load, update and append in the order of the code and are proved to leave the state that the step
  names. `TransitionResults`, `SchedulingResults`, `SweepResults` and `ServiceResults` say what each
  step leaves, field by field.
- **Dashboard** (`Projection`, `DashboardReading`, `DashboardFields`): the fold over the ledger, its
  declarative reading, and what each row shows of the events.
- **Plans and choices** (`Plugins`, `PluginResults`, `PluginRollback`, `Feedback`, `ProofPlans`,
  `PlanWords`, `Routing`).

Identifiers, times and contents that the environment supplies are parameters: the clock and event
ids come from a function of the ledger length, digests, path guards and policy verdicts are
arbitrary functions. Exceptions are result values that say how far a call had got.

## What the code does not promise

Some statements one would expect are false of the code. For each there is a lemma that says when it
holds or what happens instead, and for most an input that breaks it.

- A transition saves the item before it builds the event. If a field of the caller fails the
  validation of the event, the item is stored and the ledger does not show it
  (`LedgerAgreement.TransitionKeepsLedger`, `LongSummaryLosesEvent`).
- A submitted event chooses its own number, and so does the denial of a refused one, so the listing
  need not be the order of writing (`LedgerAgreement.StepKeepsDense`, `DenseExactly`,
  `RefusedNumberIsKept`, `SubmittedNumberMisorders`).
- `ON DELETE SET NULL` reaches only the columns of a work item, and reads use the payload.  Sweeps pass
  over the work of a client that was unregistered, even after it has registered again and gone silent,
  until some call writes the item again (`Columns.UnregisterKeepsColumns`,
  `OrphanedWork.ColumnByHistory`, `UnregisterOrphansWork`, `SavingBringsWorkBack`).  While the client is
  missing, most requests for such an item fail over the broken reference (`OrphanedWork.OrphanMoves`).
- A work item whose payload names a lease that no longer exists cannot be scheduled: the update fails
  (`Scheduling.ScheduleDecides`, `UnregisterBlocksScheduling`).
- The reason of a release is checked only when the lease is loaded again: a line break or tab in it is
  accepted, and from then on the task can be neither acquired nor expired
  (`LeaseExclusion.ReleasedTaskIsAvailable`, `UnreadableStays`, `LineBreakLocksTask`).
- A sweep marks clients again that are already stale, with one more event each, and the second time
  forgets which leases they lost (`StaleRecovery.SweepTwice`).
- A report does not determine the paths that changed. Almost every path reads like one key spelled like
  its whole text; only paths whose keys are free of "." and "[" can be told apart among themselves
  (`JsonPaths.TextIsShared`, `PlainTextsDiffer`, `DottedKeysCollide`). Values that Python calls equal,
  such as 1 and True, are reported as unchanged (`JsonDiff.ReplayIsExact`, `OneReadsAsTrue`).
- Exchanging the signs of a patch and moving its header numbers by the growth so far does not always
  undo it: the inverse is refused when a hunk numbered zero comes after growth
  (`HunkWriting.LiteralInverseRestores`, `TwoInsertionsAtZero`). Numbered anew it always fits
  (`HunkWriting.PatchInverse`), and on written files it restores them exactly when their text splits
  into the patched lines (`PatchUndo.PatchUndone`, `OpenLineIsLost`); its text can be misread when the
  patch added a line that starts with "-- " (`InverseTextReads`, `AddedDashesAreMisread`).
- The standard numbers an insertion by the line before it; the code reads that number like any other
  and inserts one line too early, except at the start of the file (`HunkWriting.EmptyRangeReadsEarly`,
  `InsertionLandsEarly`).
- A plugin row may read stale although its client is not in the list of stale clients
  (`DashboardReading.RowDisagreesWithList`, `StaleRowOfLiveClient`).
- A backup left over from an earlier installation is mistaken for the state before the latest one
  (`PluginRollback.ApplyThenRollback`, `ReinstallResurrects`).
- A result is validated after the files were written: a long approval reference leaves the change in
  place and returns no record to undo it with (`PluginRollback.AppliedIsRecorded`, `UndoneIsRecorded`,
  `LongReferenceLosesRecord`).
- A model with a negative cost is charged without a decision, so that spending and decisions differ
  (`Routing.RouteKeepsBooks`, `RunKeepsBooks`, `NegativeCostUnrecorded`).

## Model

| member | source | states |
|---|---|---|
| SwarmTasks.CycleSearch.Visit | vad/swarm/tasks.py:51-60 | A visit that reports a task reports one that reaches itself; a visit that reports nothing leaves the task visited, the path of tasks in progress as it was, and the finished tasks in dependency order. |
| SwarmTasks.RejectCycles | vad/swarm/tasks.py:47-63 | For edges whose dependencies all exist: a task is reported if and only if some task reaches itself, nothing is reported if and only if a topological order exists, and the search ends. |
| SwarmTasks.OrderExcludesCycles | vad/swarm/tasks.py:47-63 | A graph with a topological order has no task that reaches itself. |
| SwarmTasks.ValidateGraph | vad/swarm/tasks.py:26-37 | A graph is accepted exactly when ids are unique, dependencies are known and no task reaches itself; duplicates are reported first. |
| SwarmRun.Coordinator.AgentForRole | vad/swarm/coordinator.py:34-38 | An agent is found exactly when one has the role, and it is the first such agent. |
| SwarmRun.Coordinator.Publish | vad/swarm/transport.py:34-53 | A message type that the role may not publish is refused and nothing is appended; otherwise exactly one message of the sender is appended. |
| SwarmRun.OwnMessageIsAllowed | vad/swarm/transport.py:9-15 | The message that the coordinator sends for a role is the one message that the role may publish. |
| SwarmRun.WorkIsAnnounced | vad/swarm/coordinator.py:18-50 | Finished work is announced by the first agent of its role, in the word for that role. |
| SwarmRun.Coordinator.RunReadyTasks | vad/swarm/coordinator.py:18-32 | Exactly the tasks that were ready at the start of the round are completed, in graph order, up to the first whose role has no agent; all other tasks keep their status, and one message is published per completed task. |
| SwarmRun.RunCompletesTheRunnable | vad/swarm/tasks.py:39-44 | When nothing is ready any more, the completed tasks are exactly those from which no chain of pending dependencies leads to a running or blocked task. |
| SwarmRun.StopCompletesTheRunnable | vad/swarm/demo.py:46-49 | When the driving loop stops, for either reason, exactly the runnable tasks are done. |
| SwarmRun.RunRounds | vad/swarm/demo.py:46-55 | The loop ends after at most as many rounds as there are tasks. |
| SwarmRun.RunToCompletion | vad/swarm/demo.py:46-55 | For every accepted graph: the run succeeds exactly when no runnable task lacks an agent; it then completes the runnable tasks, each after its dependencies, within |tasks| rounds, and gives up early only if some task was not runnable. |
| SwarmRun.AllPendingRunFinishes | vad/swarm/demo.py:46-51 | If all tasks start pending, all of them finish: the completed list is a permutation of the task ids in which every dependency comes strictly before its dependent, so the early exit is never taken. |
| UnifiedDiff.ParseUnifiedDiff | vad/repo/patch_apply.py:57-82 | The nested index loops read what the recursive reading of the lines reads, and end. |
| UnifiedDiff.ReadingInvertsRendering | vad/repo/patch_apply.py:57-82 | Reading the rendering of a list of file patches gives back the list if and only if no path or hunk line can be mistaken for a header. |
| UnifiedDiff.ParserLeftInverse | vad/repo/patch_apply.py:57-82 | The same on patch text: parsing the text of rendered patches gives back the patches if and only if none of their lines can be mistaken for a header and the text splits into the rendered lines. |
| Text.PiecesMerge | vad/repo/patch_apply.py:39-48 | Joining pieces of at most one line each and splitting again never yields more lines than pieces, and as many only if they are the pieces. |
| TextReading.SplitIsTheLines | vad/repo/patch_apply.py:39 | Splitting a text yields the one list of pieces that make it up and are lines: they end at the line endings of Python and nowhere else, and never between a carriage return and a line feed. |
| TextReading.StripTrims | vad/repo/patch_apply.py:68 | Stripping takes the white space of Python off both ends and nothing else. |
| UnifiedDiff.WrittenHunksAreQuiet | vad/repo/patch_apply.py:72-78 | A hunk in plain form can be mistaken for a header exactly when it removes a line whose content starts with "-- ". |
| UnifiedDiff.PlainRoundTrip | vad/repo/patch_apply.py:57-127 | Patches in plain form, with quiet paths, lines that end in a line feed only and no removed line that starts with "-- ", survive being written and read: parsing their text gives back paths and hunks, and reading the hunks gives back the blocks. |
| DiffReading.PathIsNamed | vad/repo/patch_apply.py:68 | The path is what follows "+++ " without the white space around it; a leading "a/" or "b/" is dropped, and nothing else. |
| DiffReading.PreambleIsSkipped | vad/repo/patch_apply.py:61-64 | Whatever comes before the first line that starts with "--- " is skipped. |
| DiffReading.InterludeIsSkipped | vad/repo/patch_apply.py:71-80 | Whatever comes between the headers of a file and its first hunk is skipped. |
| DiffReading.LoneHeaderIsRefused | vad/repo/patch_apply.py:66-67 | A "--- " line that no "+++ " line follows makes the whole text unreadable. |
| Hunks.ApplyBody | vad/repo/patch_apply.py:99-116 | The inner loop succeeds exactly when every line is an edit and the context and removed lines match from the cursor on; it then yields the new side and moves past the old side. |
| Hunks.ApplyHunk | vad/repo/patch_apply.py:88-116 | One hunk is applied exactly when its header is readable, it starts at or after the cursor and within the file, and its old side matches there. |
| Hunks.ApplyHunks | vad/repo/patch_apply.py:85-118 | A result is returned if and only if all hunks fit from left to right, and it is the gaps interleaved with the new sides. |
| Hunks.HunksApplyExactly | vad/repo/patch_apply.py:85-118 | Hunks fit if and only if headers and markers are valid, hunks are ordered and disjoint, and every old side equals the original at its start; the result has |original| + added - removed lines. |
| HunkHeaders.HeaderReads | vad/repo/patch_apply.py:121-127 | Each of the four forms "@@ -n[,c] +m[,d] @@", with any text after it, is read as n, for all n, c, m and d. |
| HunkHeaders.SecondWordIsRead | vad/repo/patch_apply.py:121-127 | The number is read from the second word of the header, with any number of dashes before it. |
| HunkHeaders.ReplacesLine | vad/repo/patch_apply.py:85-127 | A hunk headed "@@ -n +m @@" that removes line n of a file and adds another fits every file that has that line, and replaces that line and nothing else. |
| TextReading.NumeralsAreRead | vad/repo/patch_apply.py:121-127 | A number is read exactly from digits with single underscores between them. |
| TextReading.UnderscoreIsIgnored | vad/repo/patch_apply.py:121-127 | An underscore between digits does not change the number. |
| TextReading.SignsAreRead | vad/repo/patch_apply.py:121-127 | White space around a number and a plus sign before it change nothing, a minus sign negates it. |
| Hunks.PatchedLength | vad/repo/patch_apply.py:85-118 | The length of a patched file, from any cursor. |
| Hunks.FitsMeansApplicable | vad/repo/patch_apply.py:85-118 | Fitting from left to right from a cursor is the same as finding every block in its place, ordered and disjoint. |
| HunkWriting.HeaderNamesStart | vad/repo/patch_apply.py:121-127 | The reader finds the old number of a header written with both ranges, whatever the counts and the new range are. |
| Hunks.InverseRestores | vad/repo/patch_apply.py:85-118 | If blocks turn a file into another, the blocks with added and removed lines exchanged and starts shifted by the growth so far turn it back. |
| HunkWriting.PatchInverse | vad/repo/patch_apply.py:85-127 | The same for hunks as text: the inverse hunks, numbered as the reader reads them, fit the patched file and give back the original. |
| HunkWriting.LiteralInverseRestores | vad/repo/patch_apply.py:85-127 | The literal inverse, with added and removed lines exchanged and every header number moved by the growth so far, gives back the original if and only if no hunk numbered zero or less comes after hunks that made the file longer; otherwise it does not even apply. |
| HunkWriting.TwoInsertionsAtZero | vad/repo/patch_apply.py:91-97 | Two hunks numbered zero turn an empty file into the lines a and b; their literal inverse is refused. |
| HunkWriting.EmptyRangeReadsEarly | vad/repo/patch_apply.py:91-127 | With the numbering of the standard a hunk is read where it belongs if it has old lines or is at the start of the file; an insertion further down is read exactly one line too early. |
| HunkWriting.InsertionLandsEarly | vad/repo/patch_apply.py:91-97 | A line inserted by the standard after the first of two lines lands before it. |
| PatchUndo.FileUndone | vad/repo/patch_apply.py:39-48 | On the file as it was written the inverse blocks give back the old content if and only if the written text splits into the patched lines. |
| PatchUndo.PatchUndone | vad/repo/patch_apply.py:21-54 | Applying the inverse patch to a patched workspace restores all files if and only if every written file splits into the lines that were patched and, where a file is patched twice, the inverse of the overwritten patch applies to the result of the later one. |
| PatchUndo.InverseTextReads | vad/repo/patch_apply.py:57-82 | The text of the inverse patch is read as the inverse patch if and only if no hunk adds a line that starts with "-- " and the text splits into the written lines. |
| PatchUndo.DiffUndone | vad/repo/patch_apply.py:21-82 | From text to text, for every patch text that applies: if the text of the inverse is read as the inverse, applying it restores all files if and only if every file patch can be undone in that sense. |
| PatchUndo.OpenLineIsLost | vad/repo/patch_apply.py:39-48 | A line added after a last line without an ending: the patch applies, and its inverse does not undo it. |
| PatchUndo.AddedDashesAreMisread | vad/repo/patch_apply.py:72-78 | A patch that adds the line "-- x": the text of its inverse is not read as the inverse. |
| PatchApply.Workspace.Capture | vad/repo/journal.py:25-38 | Capturing succeeds exactly when all paths stay inside the root, and takes every snapshot from the same files. |
| PatchApply.Workspace.Rollback | vad/repo/journal.py:56-76 | Snapshots are written back one after the other up to the first path that leaves the root; the report lists exactly those. |
| PatchApply.RollbackRestores | vad/repo/journal.py:56-76 | From any state of the files, rolling back restores every journalled location and touches nothing else, even with repeated paths. |
| PatchApply.RollbackUndoesWrites | vad/repo/journal.py:56-76 | Rolling back right after the journalled writes gives back the files as they were. |
| PatchApply.Workspace.PlanWrites | vad/repo/patch_apply.py:28-43 | All patches are read against the old files before anything is written; the first one that cannot be applied is reported. |
| PatchApply.Workspace.ApplyUnifiedDiff | vad/repo/patch_apply.py:21-54 | The files change exactly when every file patch applies, and then they carry the planned writes, the later winning where a path is repeated; otherwise nothing is written. |
| DiffReading.RefusedBecause | vad/repo/patch_apply.py:30-43 | A file patch is refused because its path is absolute, or leads out of the root, or names no file, or because its hunks do not fit, in this order, and for no other reason. |
| DiffWorkflow.ApplyApprovedDiff | vad/repo/diff_workflow.py:70-127 | Applied if and only if both decisions allow, the patch applies and the written files are the approved ones; in every other outcome the files are exactly as before, and the rollback itself never fails. |
| DiffWorkflow.ApprovedWhenSorted | vad/repo/diff_workflow.py:70-127 | The written files count as approved exactly when both lists are the same after sorting. |
| JsonDiff.DiffValues | vad/contracts/diff.py:31-59 | The list built by the recursive loops is the structural change list with its paths written as text. |
| JsonDiff.ReplayLosesNothing | vad/contracts/diff.py:31-59 | Replaying the change list on the old value gives a value equal, in the sense of Python, to the new one. |
| JsonDiff.ReplayIsExact | vad/contracts/diff.py:31-59 | The replayed value is the new value itself if and only if no scalar was replaced by one that Python calls equal to it, such as 1 and True. |
| JsonDiff.OneReadsAsTrue | vad/contracts/diff.py:57-58 | Replacing True by 1 inside a list is not reported, and replaying the empty report does not give the new value. |
| JsonDiff.DiffReversed | vad/contracts/diff.py:31-59 | Comparing in the other direction gives the same list with added and removed, old and new exchanged. |
| JsonDiff.NoChanges | vad/contracts/diff.py:31-59 | The change list is empty if and only if Python calls the two values equal. |
| JsonReports.ScalarsCompare | vad/contracts/diff.py:57-58 | Numbers and booleans are equal by value, whatever their types; nothing else is equal across types. |
| JsonReports.ContainersCompare | vad/contracts/diff.py:33-58 | A list equals only lists, an object only objects. |
| JsonReports.PathsAsText | vad/contracts/diff.py:31-48 | A key below another is set off by a dot, an index is put in brackets. |
| JsonReports.ObjectsInOrder | vad/contracts/diff.py:33-40 | The changes of two objects are reported by key, letter by letter. |
| JsonPaths.PathTextRoundTrip | vad/contracts/diff.py:27-28 | The reader ReadPath, which splits at "." and "[", reads the text of a path back if and only if no key contains these characters and the path does not start with the empty key. |
| JsonPaths.PlainTextsDiffer | vad/contracts/diff.py:27-28 | Two different paths without such keys have different texts. |
| JsonPaths.TextIsShared | vad/contracts/diff.py:27-48 | Among all paths that do not start with the empty key, a path shares its text with another one unless it is empty or a single key that neither has a dot after its first character nor ends with a number in brackets. |
| JsonPaths.ReadTexts | vad/contracts/diff.py:27-59 | The same reader reads a reported change list back if and only if all its paths are of that kind. |
| JsonPaths.TextReplayLosesNothing | vad/contracts/diff.py:27-59 | With plain keys the reported text alone rebuilds the new value from the old one. |
| JsonPaths.TextIdentifiesNew | vad/contracts/diff.py:27-59 | With plain keys, new values with equal reports have equal change lists, and Python calls them equal. |
| JsonPaths.DottedKeysCollide | vad/contracts/diff.py:27-28 | Two different edits of the same value that produce the same report: the key "b" below "a", and the key "a.b". |
| Eip.NormalizeEip | vad/contracts/normalize.py:10-33 | Overwriting the dumped document entry by entry yields the normal form. |
| Eip.NormalizeTwice | vad/contracts/normalize.py:10-33 | Normalising is idempotent. |
| Eip.NormalFormIsCanonical | vad/contracts/normalize.py:10-33 | Two documents have the same normal form if and only if they differ only by permutations of the sorted list fields; all other fields, such as success criteria, match exactly. |
| EipReports.NormalFormInOrder | vad/contracts/normalize.py:10-33 | The lists of the normal form hold what the document holds: strings letter by letter, obligations by id, word for the kind and description, memory by scope, purpose and size; goal and budget are as they were. |
| EipDiff.DiffEips | vad/contracts/diff.py:7-8 | The diff of two documents is empty if and only if they are equal up to the order of the sorted list fields. |
| EipDiff.EipsEqual | vad/contracts/normalize.py:10-33 | Dumped documents are equal for Python only if the documents are equal: no two field values are conflated. |
| EipReports.DumpShows | vad/contracts/models.py:69-90 | The dump shows each field of the document under its name. |
| EipReports.GoalShows | vad/contracts/models.py:27-29 | The dump of a goal shows its two fields under their names. |
| EipReports.ObligationShows | vad/contracts/models.py:31-34 | The same for an obligation, whose kind is shown by its word. |
| EipReports.InvariantsShows | vad/contracts/models.py:36-39 | The same for invariants. |
| EipReports.ConstraintsShows | vad/contracts/models.py:41-44 | The same for constraints. |
| EipReports.ToolsShows | vad/contracts/models.py:46-48 | The same for tool permissions. |
| EipReports.MemoryShows | vad/contracts/models.py:50-53 | The same for a memory requirement. |
| EipReports.BudgetShows | vad/contracts/models.py:55-58 | The same for the model budget. |
| EipReports.ReleaseShows | vad/contracts/models.py:60-63 | The same for release requirements; no strategy is shown as null. |
| EipReports.TelemetryShows | vad/contracts/models.py:65-67 | The same for telemetry requirements. |
| EipReports.TierWords | vad/contracts/models.py:5-14 | The words for the tiers of risk and autonomy. |
| EipDiff.EipDiffReplays | vad/contracts/diff.py:7-59 | The reported diff of two documents, read as text, rebuilds the new normal form from the old one. |
| StaleRecovery.SweepRecovers | vad/server/api/clients.py:101-168 | Every stale client is marked, loses its active leases and has exactly those listed as lost; exactly the unfinished items assigned to stale clients are recovered: each is handed to the least loaded eligible client, none of them stale, when work is handed out again and there is one, and is otherwise requeued without client and lease; everything else is unchanged. The ledger gains one heartbeat event per stale client, a change and a recovery per recovered item, and a further change or a denial per item handed out or not. |
| StaleRecovery.StaleClientsHoldNothing | vad/server/api/clients.py:101-168 | After a sweep no stale client has an active lease, and no unfinished item is assigned to one by its column, nor by its payload if the two agreed before. |
| SweepResults.SweepTakesBackUnsettled | vad/server/api/clients.py:35-168 | After a sweep every item whose column names a silent client is planned, queued, requeued, approved, completed, failed or cancelled; a row that a silent client held before stays as it is if and only if it was one of these, and otherwise goes to the first client that can take it or is requeued; every other row stays as it is. |
| SweepResults.SweepMarksSilent | vad/server/api/clients.py:109-138 | A client is marked if and only if it is connected and was last heard from longer ago than the limit; it keeps the time and place of its last heartbeat, lists the tasks it held by run and task, and the lease of each expires with the reason "client marked stale"; nothing else changes. |
| SweepResults.HandOutRecords | vad/server/api/clients.py:140-154 | Work is handed out by recovery-scheduler as operator for control-plane, with a change if some client can take it and a denial otherwise. |
| SweepResults.SweptByName | vad/server/api/clients.py:101-138 | Stale clients are swept by display name and then by id, letter by letter. |
| SweepResults.RequeuedByQueue | vad/server/api/clients.py:203-247 | The items of one client are requeued by priority, age and id. |
| SweepResults.HandedOutById | vad/server/api/clients.py:140-154 | Recovered items are handed out by id, letter by letter, after all clients have been swept. |
| Events.TallyCounts | vad/server/api/clients.py:101-168 | The tally that the sweep is accounted with counts heartbeats, work item changes, recovery actions and denials. |
| StaleRecovery.RequeueFirstEffect | vad/server/api/clients.py:203-247 | Of the listed items exactly the recoverable ones are requeued, with one change and one recovery event each. |
| StaleRecovery.MarkFirstEffect | vad/server/api/clients.py:125-138 | After marking any number of the stale clients, exactly what those clients had abandoned is requeued: later clients find their work untouched. |
| StaleRecovery.ReassignFirstEffect | vad/server/api/clients.py:140-154 | Each recovered item goes to the least loaded client eligible for it, with a change event, or stays, with a denial, exactly when there is none. |
| StaleRecovery.EligibleAfterSweep | vad/server/api/clients.py:125-154 | Eligible after a sweep are exactly those who were eligible before it and are not stale. |
| StaleRecovery.SweepTwice | vad/server/api/clients.py:101-168 | A second sweep at the same clock reading finds the same clients stale, changes no lease and no item and appends exactly one heartbeat event for each of them, but it empties the lists of lost leases that the first sweep recorded. |
| ControlPlaneRuns.StepKeepsInv | vad/server/db/store.py:1123-1191 | Every service call keeps rows under their own keys, foreign keys, and the run-task table equal to the work-item table. |
| ControlPlaneRuns.ReachableInv | vad/server/db/store.py:1123-1191 | In every reachable state each stored lease belongs to a registered client, foreign keys hold and the run-task table mirrors the work items. |
| LedgerAgreement.TransitionKeepsLedger | vad/server/api/work_items.py:116-167 | A transition keeps the ledger in agreement with the tables if and only if it saves nothing, or its event can be built, or the event would have shown nothing new. |
| LedgerAgreement.CreateKeepsLedger | vad/server/api/work_items.py:91-114 | Creating an item keeps the agreement if and only if nothing is stored or the event can be built. |
| LedgerAgreement.SilentSave | vad/server/api/work_items.py:158-166 | Saving an item without its event keeps the agreement if and only if the newest event already shows the item. |
| LedgerAgreement.StepKeepsLedger | vad/server/api/clients.py:48-168 | Every other call of the services keeps the agreement, the sweep with all its requeues included. |
| LedgerAgreement.LedgerAgrees | vad/server/db/store.py:1045-1066 | In every state that the services reach by themselves event k bears number k + 1, the listing is the order of writing, the newest work-item event of every item shows its status and evidence digest, and the run-task table mirrors the items. |
| LedgerAgreement.StepKeepsDense | vad/server/api/events.py:32-66 | Dense numbering survives a call if and only if the call does not store an event under a submitted number other than the next: the submitted event, if its role may submit it and its id is new, or else the denial, if its role may not, whatever its id. |
| LedgerAgreement.DenseExactly | vad/server/api/events.py:32-66 | After any run the ledger is densely numbered if and only if every event stored under a submitted number bore the next number at its time. |
| LedgerAgreement.RefusedNumberIsKept | vad/server/api/events.py:40-52 | A builder submits an approval under an id that is stored already: it is refused, and the denial is stored under the number that was submitted. |
| LedgerAgreement.RunKeepsDense | vad/server/db/store.py:1045-1066 | Without submitted events the listing is the order of writing, even for callers whose fields make no valid event. |
| LedgerAgreement.ListedAsWritten | vad/server/db/store.py:1063 | The listing is the order of writing if and only if the ledger was written in listing order. |
| LedgerAgreement.LongSummaryLosesEvent | vad/server/api/work_items.py:194-211 | Blocking the item with any valid reason of 477 to 500 characters, which makes the summary longer than 500, stores the item as blocked, raises, and leaves the ledger showing it as active. |
| LedgerAgreement.SubmittedNumberMisorders | vad/server/db/store.py:1063 | An event submitted with a high number, or its denial, is listed after an event that was written later. |
| LeaseExclusion.LeaseSurvives | vad/server/api/leases.py:32-92 | A held lease survives a call if and only if the call does not release, expire, sweep away or delete it. |
| LeaseExclusion.LeaseBegins | vad/server/api/leases.py:32-56 | A client comes to hold a task if and only if it acquires the task while nobody holds it and no unreadable old lease is stored for it. |
| LeaseExclusion.LeaseExclusion | vad/server/api/leases.py:32-92 | Over any run: if one client holds a task and later another does, a call in between ended the first lease, and after it a call acquired the free task for the other. |
| LeaseExclusion.OnlyHolderRenews | vad/server/api/leases.py:58-68 | Renewing succeeds exactly for the holder and moves only the deadline; every other caller gets an error and changes nothing. |
| LeaseExclusion.OnlyHolderReleases | vad/server/api/leases.py:70-80 | Releasing succeeds exactly for the holder, frees only that task and stores the reason as given; every other caller gets an error and changes nothing. |
| LeaseExclusion.HeldTaskIsRefused | vad/server/api/leases.py:32-49 | Acquiring a held task stores nothing and appends one blocked event in the name of the holder. |
| LeaseExclusion.FreeTaskIsLeased | vad/server/api/leases.py:50-56 | Acquiring a free task makes the caller its holder, with the deadline asked for, and changes no other lease, unless the stored lease cannot be loaded, in which case the call raises and changes nothing. |
| LeaseExclusion.ReleasedTaskIsAvailable | vad/control_plane/leases.py:34-52 | After a release the task can be leased again, by whoever asks, if and only if the reason has no line feed, carriage return or tab. |
| LeaseExclusion.UnreadableStays | vad/server/api/leases.py:32-92 | A lease that cannot be loaded survives every call unchanged, except that unregistering its client deletes it. |
| LeaseExclusion.LineBreakLocksTask | vad/control_plane/leases.py:93-101 | A release with the reason "a\nb" is accepted, and the task cannot be acquired again. |
| ServiceResults.AcquireStores | vad/server/api/leases.py:32-56 | Every outcome of acquiring: the four cases in their order, the stored lease and the event field by field. |
| ServiceResults.RenewStores | vad/server/api/leases.py:58-68 | Every outcome of renewing, with the reasons of refusal in their order. |
| ServiceResults.ReleaseStores | vad/server/api/leases.py:70-80 | Every outcome of releasing. |
| ServiceResults.ExpireStores | vad/server/api/leases.py:82-92 | Every outcome of expiring. |
| Columns.StepKeepsColumns | vad/server/db/store.py:643-714 | Every call keeps columns and payloads of work items in step, with the one exception of unregistering a client that some payload names. |
| Columns.UnregisterKeepsColumns | vad/server/db/store.py:1182-1183 | Unregistering keeps columns and payloads in step if and only if no payload names the client or one of its leases. |
| Columns.SweepInRuns | vad/server/api/clients.py:101-168 | After any run without unregister a sweep leaves no unfinished work with a stale client, neither by column nor by payload. |
| OrphanedWork.UnregisterOrphansWork | vad/server/api/clients.py:101-168 | After any run a sweep recovers an unfinished item whose payload names a stale client if and only if that client was not unregistered after the last call that wrote the item; otherwise it leaves the item exactly as it is. |
| OrphanedWork.ColumnByHistory | vad/server/db/store.py:1182-1183 | In every reachable state the column of an item names the client that its payload names, unless that client was unregistered after the last call that wrote the item; then the column is empty, even if the client has registered again. |
| OrphanedWork.StepMoves | vad/server/db/store.py:643-714 | A call that creates, moves, schedules or recovers an item leaves its columns and payload in step; every other call leaves the payload as it was, and the columns but for those that unregistering a client clears. |
| OrphanedWork.SavingBringsWorkBack | vad/server/api/work_items.py:116-167 | Work of a client that is unregistered, registered again and then silent: the sweep passes over it, but if the item is moved to BLOCKED first, the sweep recovers it. |
| OrphanedWork.OrphanMoves | vad/server/api/work_items.py:116-167 | An item whose payload names a client that is not registered is moved if and only if the request and its caller are valid and the request requeues the item or names a registered client, with a stored lease if any; every other valid request along the table fails and changes nothing. |
| Scheduling.ScheduleDecides | vad/server/api/work_items.py:365-423 | Scheduling an item either denies with exactly one event and no other change, or assigns it to the least loaded eligible client and changes nothing else, or fails over a lease that no longer exists; with caller fields that make no valid event nothing is appended and an error is raised, after the assignment was stored. |
| Scheduling.UnregisterBlocksScheduling | vad/server/db/store.py:675-714 | After the holder of a lease that a queued item names was unregistered, scheduling that item for an eligible client raises and changes nothing. |
| Scheduling.ScheduleNextDecides | vad/server/api/work_items.py:333-363 | The first queued item by (priority, creation time, id) is scheduled; if none is queued nothing happens at all. |
| SchedulingResults.NextItemIsScheduled | vad/server/db/store.py:749 | The next item is the queued or requeued one of the run with the smallest priority number, among these the oldest, and among these the first by id, letter by letter; with none the answer is 404. |
| SchedulingResults.FirstClientIsAssigned | vad/server/api/work_items.py:365-441 | A waiting item goes to the active, trusted client with the needed capability that holds the fewest tasks, then the first by name, then by id, letter by letter; it is saved field by field with one event, and the other cases are denied or fail as told. |
| Scheduling.ChoiceIsUnique | vad/server/api/work_items.py:425-441 | First in the queue and least loaded are unique, so the tables determine the choice. |
| Lifecycle.StepFollowsTable | vad/server/api/work_items.py:14-66 | Every call keeps every item and its identity and leaves its payload alone or moves it along one edge of the transition table; only a sweep may take two, to REQUEUED and on to ASSIGNED. |
| TransitionResults.TransitionStores | vad/server/api/work_items.py:14-167 | For every request: the item is saved if and only if its status is one from which the requested one can be reached, listed for each of the twelve targets, the values are well formed, letter by letter, and the references are intact. It then has every supplied value and keeps every omitted one, but for client and lease after a requeue, in row, payload and run-task state; the event, the denial and the errors are stated field by field. |
| TransitionResults.CreateStores | vad/server/api/work_items.py:91-114 | Creating an item stores it as it is in row, payload and run-task state with one event, unless its id is taken or a reference is broken. |
| Lifecycle.FinalIsForever | vad/server/api/work_items.py:65-66 | Over any run completed and cancelled items keep their payload, and no item is lost or changes its id, run, role, capability, priority or creation time. |
| Lifecycle.CompletionIsEarned | vad/server/api/work_items.py:28-58 | An item becomes completed only from RUNNING or APPROVED, and approved only from VERIFYING. |
| Lifecycle.RegisterUnregisterRestores | vad/server/api/clients.py:48-56 | Unregistering undoes registering: every table is as before and the ledger has two more events. |
| Lifecycle.HeartbeatProtects | vad/server/api/clients.py:58-82 | A client that has sent a heartbeat keeps its status, leases and work through every sweep until the threshold has passed. |
| Lifecycle.SilenceIsNoticed | vad/server/api/clients.py:110-119 | A sweep marks a connected client if and only if its last heartbeat is older than the threshold. |
| ServiceResults.RegisterStores | vad/server/api/clients.py:48-51 | Registering stores the manifest and one event field by field, unless the id is taken. |
| ServiceResults.UnregisterStores | vad/server/api/clients.py:53-56 | Unregistering removes the client, its heartbeat and its leases, clears the columns that name them, keeps payloads, and records one stale event. |
| ServiceResults.HeartbeatStores | vad/server/api/clients.py:58-82 | A heartbeat replaces the row but for the lost leases and records one event at the time it was observed. |
| ServiceResults.MarkRecords | vad/server/api/clients.py:180-201 | Marking a client records when and where it was last seen, in its own name. |
| ServiceResults.MarkStores | vad/server/db/store.py:523-562 | Marking keeps when and where a client was last seen, makes a row if there is none, and expires the leases it held, field by field. |
| ServiceResults.RequeueRecords | vad/server/api/clients.py:203-247 | Requeueing an item records the change and the recovery in the name of the client, field by field. |
| ServiceResults.IngestStores | vad/server/api/events.py:12-66 | A submitted event is stored as it is, refused for a taken id, or answered by a denial under its number, by kind and role written out. |
| ServerStore.TaskLease.Renew | vad/control_plane/leases.py:41-45 | An active lease gets a new deadline in place; any other is refused and stays as it is. |
| ServerStore.TaskLease.Release | vad/control_plane/leases.py:47-52 | An active lease is released in place with the reason; any other is refused and stays as it is. |
| ServerStore.TaskLease.Expire | vad/control_plane/leases.py:54-60 | Only an active lease whose deadline is reached expires. |
| ServerStore.Store.ExpireTaskLeasesForClient | vad/server/db/store.py:634-641 | The loop expires exactly the active leases of the client and returns their tasks in listing order. |
| ServerStore.Store.MarkClientStale | vad/server/db/store.py:523-562 | The client is marked, its lost leases are recorded and expired; a client without heartbeat gets a row. |
| ServerStore.Store.UnregisterClientManifest | vad/server/db/store.py:458-462 | The delete removes heartbeat and leases and clears the columns that refer to them, and nothing else. |
| ServerStore.Store.RecordClientHeartbeat | vad/server/db/store.py:464-493 | The heartbeat replaces the row but for the list of lost leases. |
| ServerStore.Store.SaveWorkItem | vad/server/db/store.py:643-673 | The row and its run-task state are written together, unless the id is taken or a reference is broken. |
| ServerStore.Store.UpdateWorkItem | vad/server/db/store.py:675-714 | The row and its run-task state are rewritten together, unless the item is missing or a reference is broken. |
| ServerStore.Store.AppendControlPlaneEvent | vad/server/db/store.py:1016-1043 | An event is stored at the end under its own number, unless an event with its id is stored already. |
| LeaseService.TaskLeaseService.Acquire | vad/server/api/leases.py:32-56 | Leaves exactly the state and outcome of the acquiring step, about which the lemmas of LeaseExclusion speak, including the exception for a stored lease that cannot be loaded. |
| LeaseService.TaskLeaseService.Renew | vad/server/api/leases.py:58-68 | The same for renewing, through a lease object that is changed in place. |
| LeaseService.TaskLeaseService.Release | vad/server/api/leases.py:70-80 | The same for releasing: the reason is stored unchecked. |
| LeaseService.TaskLeaseService.Expire | vad/server/api/leases.py:82-92 | The same for expiring, whatever the status of the lease, provided that it can be loaded. |
| EventService.ControlPlaneEventService.Ingest | vad/server/api/events.py:12-66 | Leaves exactly the state and outcome of the submitting step: the event, its denial under the same number, or the error for an id that is taken. |
| WorkItemService.UpdateItem | vad/control_plane/work_items.py:109-131 | Replacing the supplied values one after the other, and clearing client and lease on a requeue, gives the updated item. |
| WorkItemService.WorkItems.Create | vad/server/api/work_items.py:91-114 | Leaves exactly the state and outcome of the creating step. |
| WorkItemService.WorkItems.Transition | vad/server/api/work_items.py:116-167 | Leaves exactly the state and outcome of the transition step: the item is saved before its event is built. |
| WorkItemService.Scheduler.EligibleClients | vad/server/api/work_items.py:425-441 | Filtering the listed clients and sorting what is left yields the ranking by (active leases, name, id). |
| WorkItemService.Scheduler.QueuedItems | vad/server/api/work_items.py:341-345 | Filtering the listing keeps exactly the schedulable items in their order. |
| WorkItemService.Scheduler.ScheduleWorkItem | vad/server/api/work_items.py:365-423 | Leaves exactly the state and outcome of the scheduling step. |
| WorkItemService.Scheduler.ScheduleNext | vad/server/api/work_items.py:333-363 | The same for the next item of the queue. |
| ClientRegistry.ClientRegistryService.Register | vad/server/api/clients.py:48-51 | Leaves exactly the state and outcome of the registering step. |
| ClientRegistry.ClientRegistryService.Unregister | vad/server/api/clients.py:53-56 | The same for unregistering. |
| ClientRegistry.ClientRegistryService.Heartbeat | vad/server/api/clients.py:58-82 | The same for a heartbeat. |
| ClientRegistry.ClientRegistryService.FindStale | vad/server/api/clients.py:109-119 | The loop over the listed clients collects exactly the stale ones, in listing order. |
| ClientRegistry.ClientRegistryService.RecoverStaleWorkItems | vad/server/api/clients.py:203-247 | The loop requeues the recoverable items of one client in listing order. |
| ClientRegistry.ClientRegistryService.MarkStaleClientsWithRecovery | vad/server/api/clients.py:101-168 | The two phases leave the state of the sweep, with everything that SweepRecovers promises. |
| Projection.BuildDashboardProjection | vad/control_plane/projection.py:9-98 | The loop and what follows it yield a dashboard that reads the sorted ledger: exact histograms, one row per task from its last event, one row per client from its last heartbeat or message, the stale clients in order, all events in order. |
| Projection.FindStaleClients | vad/control_plane/projection.py:80-84 | The comprehension over last-seen times lists exactly the stale clients. |
| DashboardReading.ReadsUnique | vad/control_plane/projection.py:9-98 | The declarative reading determines the dashboard. |
| DashboardReading.OrderIrrelevant | vad/control_plane/projection.py:15 | With distinct event ids the dashboard does not depend on the order of the input. |
| DashboardReading.CountsAreExact | vad/control_plane/projection.py:30-32 | Each count table is the exact histogram of the input and sums to the number of events. |
| DashboardReading.StaleClientsAreExact | vad/control_plane/projection.py:80-84 | A client is listed as stale if and only if it has an event and either was declared stale by some event or has only events older than the threshold. |
| DashboardFields.ListedInOrder | vad/control_plane/projection.py:15 | Events are shown by sequence number, then by time, then by id, letter by letter, each as often as given. |
| DashboardFields.ActivityShowsEvents | vad/control_plane/projection.py:39-53 | Each activity shows the fields of its event, and as client its label, or its client id if it has no label or an empty one. |
| DashboardFields.CountsTellEvents | vad/control_plane/projection.py:27-32 | The count of a client name is the number of events with that label plus the number of those without a label whose client id it is; statuses and kinds are counted as they stand. |
| DashboardFields.TaskBoardShowsEvents | vad/control_plane/projection.py:55-67 | One row for each task named by an event, by id, with the fields of the last such event. |
| DashboardFields.PluginRowsShowEvents | vad/control_plane/projection.py:69-87 | One row for each name that a heartbeat or message goes by, letter by letter, with the fields of the last such event; it reads stale exactly when the name has gone quiet or that event is older than the limit. |
| DashboardFields.StaleListShowsEvents | vad/control_plane/projection.py:80-84 | The stale list has exactly the names of which some event says stale or all are older than the limit, letter by letter. |
| DashboardReading.RowDisagreesWithList | vad/control_plane/projection.py:69-87 | A plugin row reads stale although its client is not listed exactly when its last heartbeat or message is old, some other event is recent, and none declared it stale. |
| DashboardReading.StaleRowOfLiveClient | vad/control_plane/projection.py:69-87 | Such a row: an old heartbeat followed by a recent tool call. |
| Plugins.CreateDryRun | vad/control_plane/plugins.py:434-472 | A plan is made exactly when every config path is in an allowed scope, under its root and of 1 to 500 characters; it has one write and one undo per path. |
| Plugins.Installer.Apply | vad/control_plane/plugins.py:523-577 | Checks the reference, then all pairs, before the first write; then writes all targets and backups; then validates the record, and if that fails the files stay written and no record comes back. |
| Plugins.Installer.Uninstall | vad/control_plane/plugins.py:580-625 | Removes the recorded files in order and stops at the first missing hash or drifted file; the record is validated after the removals and loses its hashes. |
| Plugins.Installer.Rollback | vad/control_plane/plugins.py:628-676 | Restores in order and stops at the first missing hash or drifted file; the record is validated afterwards and loses its hashes. |
| PluginResults.ApplyRefuses | vad/control_plane/plugins.py:911-984 | Applying is refused, with no file changed, for a reference that is blank or has a line break or tab, then for a plan that is no dry run, then for the first pair with a wrong scope, target, undo or backup, each with its error; otherwise all files are written. |
| PluginResults.RecordOfApply | vad/control_plane/plugins.py:549-577 | The record names plugin, client, version and digests of the plan and is ready to be undone. |
| PluginResults.UninstallAnswers | vad/control_plane/plugins.py:580-625 | Uninstalling needs a reference and a record of the plan; the files are then what the loop leaves, an error of the loop is the answer, and success leaves the record with no hashes and its new status, and otherwise as it was. |
| PluginResults.RollbackAnswers | vad/control_plane/plugins.py:628-676 | So does rolling back. |
| PluginResults.NamesAreRelative | vad/control_plane/plugins.py:875-879 | Names in records have no line break or tab, no ".." between slashes of either kind, and no slash in front. |
| PluginResults.UndoRefuses | vad/control_plane/plugins.py:592-603 | A file is undone only when its hash was recorded and it is absent or still has that hash; a missing hash is told before drift. |
| PluginResults.NamesInRecords | vad/control_plane/plugins.py:977-984 | A record names a file by the word for its scope and its relative path. |
| PluginResults.DryRunPairs | vad/control_plane/plugins.py:447-464 | A dry run asks for each config to be written and to be restored from a backup named after it with .vad-backup. |
| PluginRollback.AppliedIsRecorded | vad/control_plane/plugins.py:353-577 | A call past the guards writes all files in any case, and returns its record if and only if the approval reference has at most 253 characters and the names of targets and backups pass the checks of the record. |
| PluginRollback.UndoneIsRecorded | vad/control_plane/plugins.py:580-676 | An uninstall or rollback past the guards leaves the files as its loop left them, and returns its record if and only if the loop was not stopped and the reference has at most 255, or 259, characters. |
| PluginRollback.LongReferenceLosesRecord | vad/control_plane/plugins.py:911-914 | With a reference of 254 characters the config is overwritten and the call fails, so that there is no record to undo it with. |
| PluginRollback.ApplyEffect | vad/control_plane/plugins.py:537-548 | After applying, targets carry the new content, backups the old one, and every other file is as it was. |
| PluginRollback.BackupsRecorded | vad/control_plane/plugins.py:541-544 | The record names a backup exactly for the targets that existed before, in plan order. |
| PluginRollback.ApplyThenRollback | vad/control_plane/plugins.py:628-676 | With pairwise distinct paths rolling back what was applied passes every drift check, and a target comes back as it was, content or absence, if and only if no old backup lay beside an absent target; elsewhere only backups change. |
| PluginRollback.SecondRollbackFails | vad/control_plane/plugins.py:640-657 | With the record that a rollback or an uninstall leaves behind, rolling back a non-empty plan fails and changes nothing. |
| PluginRollback.DriftStopsRollback | vad/control_plane/plugins.py:640-654 | An edited file stops the rollback: the targets before it are restored, it and those after it stay. |
| PluginRollback.RemoveEffect | vad/control_plane/plugins.py:592-603 | An uninstall without drift removes exactly the targets. |
| PluginRollback.ReinstallResurrects | vad/control_plane/plugins.py:523-676 | Apply, uninstall, apply and roll back brings back the file from before the first application, not the absence from before the second. |
| PluginRollback.DryRunPaths | vad/control_plane/plugins.py:447-464 | A dry run yields distinct paths if and only if its config paths are distinct and none is the backup of another. |
| Feedback.NextObligationId | vad/feedback/proposals.py:59-63 | The loop ends at the first free index, which is at most one more than the number of ids. |
| Feedback.Pigeonhole | vad/feedback/proposals.py:59-63 | If po-1 to po-n are all taken there are at least n ids. |
| Feedback.ApplyApprovedProposals | vad/feedback/proposals.py:27-56 | Existing invariants and obligations keep their places, nothing else changes, no repetition is introduced, every addition was asked for by an approved proposal and every request was met. |
| Feedback.AppliedOnlyAdds | vad/feedback/proposals.py:27-56 | The same after any number of proposals. |
| Feedback.FailsExactly | vad/feedback/proposals.py:39-56 | The call fails if and only if some approved proposal, when its turn comes, names an unknown category, or an unknown kind for an id that is not yet taken. |
| PlanWords.InvariantIsAdded | vad/feedback/proposals.py:39-44 | The list that the category names gains the description unless it has it; functional and the reason are the defaults; any other category fails. |
| PlanWords.ObligationIsAdded | vad/feedback/proposals.py:47-63 | The obligation is added under the given id or the first free po-n, with the kind named by its word; a taken id adds nothing and an unknown word fails. |
| PlanWords.OthersChangeNothing | vad/feedback/proposals.py:27-36 | Unapproved proposals and those of any other type change nothing. |
| ProofPlans.MapProofs | vad/proof/mapper.py:17-41 | Fails exactly for claims without obligations or for two obligations with commands that share an id; otherwise the sorted obligations are split into mappings and manual gates. |
| ProofPlans.DuplicatesExactly | vad/proof/plan.py:28-34 | The plan is rejected as duplicate if and only if two obligations with commands share an id; manual gates may repeat. |
| ProofPlans.CoverageIsExact | vad/proof/plan.py:36-43 | A plan covers an id if and only if some obligation has it. |
| ProofPlans.MappedByKind | vad/proof/plan.py:36-40 | Where ids are unique an obligation is mapped to the command of its own kind. |
| PlanWords.CommandsByKind | vad/proof/mapper.py:5-14 | Unit and property proofs run pytest, manual gates nothing, every other kind the tests marked with its word. |
| PlanWords.PlanIsById | vad/proof/mapper.py:21-30 | Mappings and gates are planned by id, letter by letter. |
| PlanWords.NothingClaimed | vad/proof/mapper.py:41-45 | Mapping fails for missing obligations exactly when there are none although some invariant or success criterion is stated. |
| ProofPlans.FeedbackKeepsProvable | vad/proof/mapper.py:17-41 | If ids were unique and the EIP after feedback has an obligation, mapping succeeds and covers every obligation, old and new. |
| Routing.BudgetManager.Charge | vad/router/budget.py:12-16 | The amount is added first, the complaint comes afterwards. |
| Routing.BudgetManager.IncrementDepth | vad/router/budget.py:18-22 | The depth is counted first, the complaint comes afterwards. |
| Routing.Router.Route | vad/router/routing.py:19-64 | Leaves exactly the state and outcome of the routing step; the inner charge never complains. |
| Routing.TryStops | vad/router/routing.py:28-61 | The loop charges and logs the first candidate that policy allows and the budget affords, or none. |
| Routing.TryLeavesEvidence | vad/router/routing.py:28-63 | The evidence of a call is one denial for each candidate before the chosen one whose tier policy denies, in order, and then the decision, or the exhaustion if none was chosen. |
| Routing.RouteChoosesBest | vad/router/routing.py:19-74 | Within depth the model chosen is the costliest eligible model that policy allows and the budget affords, the cheapest for low-risk formatting; if there is none, nothing is charged, logged or decided. |
| Routing.DecisionIsJustified | vad/router/routing.py:66-84 | The chosen model is of tier2 whenever the risk is high or the purpose is verification, and then the costliest affordable one; the cheapest for other formatting; otherwise the costliest; and the decision says which, with the reason within budget exactly when the first of the costliest models could be afforded. |
| Routing.RouteKeepsBooks | vad/router/routing.py:39-57 | A call within depth spends exactly what it records if and only if the best model that is eligible, allowed and affordable does not have a negative cost; otherwise, and only then, it fails to build its decision. |
| Routing.UnrecordableExactly | vad/router/routing.py:39-50 | When that is, as a caller can check it: for low-risk formatting some wanted model has a negative cost; otherwise some model is wanted and all wanted models have one. |
| Routing.RouteMovesBooks | vad/router/routing.py:19-64 | Every call, within depth or not: one more level of depth, spending unchanged or within the budget, never more spent than recorded, and one decision exactly for a success. |
| Routing.BudgetBound | vad/router/budget.py:5-22 | Over any sequence of calls, whatever the costs: spending exceeds neither the budget nor the recorded decisions, and equals them if and only if no call failed to build its decision; each success has its decision, and at most max_depth calls succeed. |
| Routing.RunKeepsBooks | vad/router/routing.py:19-64 | Over any sequence of calls spending equals the recorded decisions if and only if no call within depth met a best model of negative cost, given what was spent before it. |
| Routing.NegativeCostUnrecorded | vad/router/routing.py:39-50 | A model with a negative cost is charged, but no decision can be recorded for it. |

## Left out

- JsonPaths.TextReplayLosesNothing: one direction only; a report with ambiguous paths may still replay
  to the right value by luck. The exact condition for reading a report back is `JsonPaths.ReadTexts`.
- PatchUndo.DiffUndone: where the text of the inverse is not read as the inverse, nothing is said about
  what applying it does.
- ProofPlans.FeedbackKeepsProvable: assumes that ids are unique before the feedback, as the code does
  not check it; when mapping fails is stated exactly by `ProofPlans.MapProofs`.
- Two clock readings within one call are one reading; time stamps are integers, so that the ordering
  of ISO texts with different offsets does not arise.
- SQLite, migrations, JSON serialisation and the generation of event ids: tables are maps and a
  sequence, and generated ids are taken not to collide.
- Concurrent calls: steps are atomic and serial.
- The result records of calls beyond their status code, such as the per-client reports of a sweep.
- Titles, descriptions and governance of work items, summaries of events and the texts of decisions,
  except for the length of a summary that the caller supplies.
- The HTTP, command-line and MCP layers, listings for display, and `check_approval_transition`.
- The construction of registered manifests, heartbeats, leases and items from request data: they are
  taken to have passed their own validation.
- `create_diff_proposal` and the digests of journals, applied files and normalised documents.
- Newline translation, text encodings, symbolic links and write errors of the operating system; Unicode
  digits in hunk headers, and numbers there of more than 4300 digits, which Python refuses to convert;
  NaN among JSON numbers.
- Plugin manifests, signatures, the verification of artifacts, the security audit and the text fields
  of inventory records other than paths and evidence; an inventory key is the pair of scope and path.
- Payloads of feedback proposals other than strings, and attribute names of the invariants object other
  than its three lists, which count as unknown categories.
- Token estimates other than the fixed one, and rounding: costs are exact reals.
- The recursion limit of the interpreter, which a deep chain of swarm tasks or of JSON values reaches.
- Directories in the place of patch or config targets.
- The swarm demo around its driving loop: workspace, state file and test run.
- Client package builders, documentation checks, telemetry, MEES thresholds and the deploy provider are
  constant data or short checks and would add only easy members.
