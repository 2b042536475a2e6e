# Control plane: a verified model

A Dafny model of the parts of this repository that change a project or decide what
may change in it, with proofs of what they promise. `dafny verify dfyconfig.toml`
checks all of it.

| modules | what they model |
|---|---|
| `Trees`, `ChangeSets`, `WriterModel`, `Journals`, `Nesting`, `Writer`, `Overlay` | file changes: computed from a tree, checked against it, staged, swapped in and rolled back |
| `InstallModel`, `Install`, `Uninstall`, `InstallLaws`, `InstallTheorems`, `PackageFiles`, `InstallTexts`, `InstallSuccess`, `InstallStacks` | installs tried on a copy and committed as a diff, and their recorded reversal |
| `AgentsMd`, `AgentsMdTheorems`, `SourceDigest` | the managed block of AGENTS.md, and the source digest that ignores it |
| `Checkpoints`, `InitGraph`, `InitHistory` | initialization runs shared by several owners through compare-and-swap |
| `Scenarios`, `TaskRunner` | risk classification, phase plans, and their checkpointed execution |
| `JsonLines`, `JsonRpc`, `JsonRpcTheorems` | the JSON-RPC transport |
| `Migrations`, `Practices`, `Inventory`, `Resolver`, `Discovery` | the deterministic planners |
| `Ordering`, `Wrappers` | a stable sort with its uniqueness laws, string order, option and result types |

How the world is modelled:

- A tree is a map from paths to files and directories. A file is text, or bytes that
  are not UTF-8. `AtomicWriter` holds the tree, the stage and the backup; which
  operating-system call fails, and what an interrupted removal spares, is an arbitrary
  function of a clock, so the contracts hold for every pattern of failures.
- SHA-256 is a constructor: it has no collisions. YAML and JSON are pairs of functions
  that undo each other, write no carriage return, and make a text longer by quoting it.
  Strings of AGENTS.md are bytes, one character each.
- Commands, scans, preflights, approvals, migrations, policy verdicts and case folding
  are arbitrary functions passed in.
- Concurrency is a machine of atomic steps: `InitHistory` interleaves the loads and
  swaps of any owners, `JsonRpcTheorems` the steps of all tasks that share a client.
  The class methods take what others do in between as a parameter, and
  `InitHistory.CallsAreSteps` ties the two.
- A crash is a step at which a session ends; what is on disk is what the last atomic
  save put there. `TaskRunner` keeps a ghost log of what ran.

## What does not hold

Each of these limits is stated by a theorem, with its exact condition where it has one.

- A directory creation that fails halfway leaves directories that no rollback removes,
  because they are recorded only after it (`src/vibe/materialize/writer.py:128-135`); a
  failing rmdir is suppressed. `ApplyChangeset` restores the tree if and only if neither
  happened.
- A ChangeSet that deletes a file and creates another below it, in a directory of the
  same name, cannot be undone from there on: the rollback finds the directory in the
  file's place, reports an error, and the file goes with the backup
  (`src/vibe/materialize/writer.py:149-154`).
- A failure once the backup is removed loses every replaced file
  (`src/vibe/materialize/writer.py:77-87`).
- A file with the text `<absent>` has the digest of an absent file
  (`src/vibe/materialize/changeset.py:13`), so its appearance goes unnoticed.
- AGENTS.md without a CRLF that ends in a lone CR flips its newline at the first merge
  (`src/vibe/materialize/agents_md.py:24`); then stripping does not undo the merge, and
  a second merge differs from the first.
- Uninstalling restores files as text reads them: carriage returns are lost
  (`src/vibe/remote/install.py:399`). It removes no directory, so the first install of a
  project leaves `.ai-project/install-transactions` behind. Out of order, an uninstall
  drops later entries from the lock. After an update it is refused. For a name with a
  slash, the transaction is nested where the search never looks
  (`src/vibe/commands/uninstall.py:87`).
- An install planned over the very lock it would write leaves the lock to its commands
  (`src/vibe/materialize/writer.py:51-57`): what they drop from it stays dropped. A lock
  that completed installs have written is never in that case.
- Packages with a NUL in a file can be different and have the same text, of which the
  digest is taken (`src/vibe/remote/install.py:221-227`).
- A losing owner's side effect may have run (`src/vibe/workflows/init_graph.py:60-61`).
- A transport failure overwrites a result whose waiter has not returned
  (`src/vibe/codex/jsonrpc.py:306-308`). At the end of the stream while closing no
  transport error reaches those who wait. Neither does one after a malformed tail: it is
  raised inside the handler of the end of the stream
  (`src/vibe/codex/jsonrpc.py:227-231`), where the clause beside it does not catch it, and
  leaves the reader as an exception of its task group.
- A version such as `02` that equals the latest by number ends in an error
  (`src/vibe/migrations/registry.py:110-115`).

## Model

| member | source | states |
|---|---|---|
| ChangeSets.BuildChangeset | src/vibe/materialize/changeset.py:105-130 | the loop over a dictionary of proposals returns exactly the ChangeSet, or the first error, of the specification function |
| ChangeSets.BuiltOkIff | src/vibe/materialize/changeset.py:105-178 | a build succeeds if and only if no two proposals have one path and every single proposal can be built |
| ChangeSets.BuiltFailsWith | src/vibe/materialize/changeset.py:105-130 | it fails with the first path that comes for the second time, or else with what is wrong with the first proposal in path order that cannot be built |
| ChangeSets.OperationIs | src/vibe/materialize/changeset.py:156-194 | a single proposal, field by field: contents, digests and kind of change; and it fails exactly for a file that is not text, or for deleting a managed file |
| ChangeSets.SafePathIff | src/vibe/materialize/changeset.py:208-215 | a path is safe if and only if its posix form splits into these very parts, none of them empty, one dot or two, and without a backslash |
| ChangeSets.BuiltIsValid | src/vibe/materialize/changeset.py:73-102 | what is built passes its own validators: digests and kinds agree with contents, paths are unique and sorted |
| ChangeSets.BuiltCoversProposals | src/vibe/materialize/changeset.py:116-118 | every proposal has its operation |
| ChangeSets.BuiltComesFromProposals | src/vibe/materialize/changeset.py:116-118 | and every operation has its proposal |
| ChangeSets.OwnershipIsRespected | src/vibe/materialize/changeset.py:160-168 | managed files are never deleted, observed files never change |
| Writer.AtomicWriter.ApplyChangeset | src/vibe/materialize/writer.py:39-87 | over every tree, command effect, pattern of failing calls and nesting of paths: a stale tree is left alone; it ends in a failed command if and only if one command fails on the tree that those before it made, and leaves what that one left, while nothing else is applied unless every command ran on what the one before it left; success is the operations' tree, and is reached whenever nothing fails or stands in the way; a failed apply without commands that reports no error has every file and directory back, and is the old tree if and only if no directory creation was half done and no rmdir failed; with commands, the same of the tree they left, if operations replace files only, or no path is above another and the backup was whole; a failure after the backup is gone loses exactly the replaced files |
| Writer.CommandsRun | src/vibe/materialize/writer.py:45-49 | told by the runner alone: all commands succeed if and only if a chain of trees leads through them, one fails if and only if such a chain leads to a command that fails, and what is left is the end of that chain |
| Writer.AtomicWriter.RunCommands | src/vibe/materialize/writer.py:45-49 | the loop over the commands stops at the first that fails |
| Writer.VerifyBeforeDigests | src/vibe/materialize/writer.py:90-109 | reports the first unreadable path, else all conflicts in order, else nothing |
| Writer.AtomicWriter.StageContents | src/vibe/materialize/writer.py:112-118 | the stage holds every new content; it succeeds when no call fails and no path is above another |
| Writer.AtomicWriter.EnsureParent | src/vibe/materialize/writer.py:128-135 | the directories on the way exist, exactly those that were missing are recorded, and nothing else changes |
| Writer.AtomicWriter.InstallAll | src/vibe/materialize/writer.py:65-76 | the swap loop comes to the operations' tree, and at every point the journal, the backup and the created directories account for the whole tree, or a file that was moved away has a directory in its place |
| Writer.AtomicWriter.UnlinkInstalled | src/vibe/materialize/writer.py:143-148 | removes every new file and nothing else |
| Writer.AtomicWriter.RestoreBackedUp | src/vibe/materialize/writer.py:149-154 | brings back everything moved away; with a whole backup and no failing call, without an error; and reports an error if a directory is in the place of a file |
| Writer.AtomicWriter.RemoveCreated | src/vibe/materialize/writer.py:155-157 | deepest first, every created directory is empty when its turn comes and goes, unless a call fails |
| Writer.AtomicWriter.Rollback | src/vibe/materialize/writer.py:138-158 | with no error, only directories can be left over, and those only if a mkdir was cut short or an rmdir failed; a file with a directory in its place is reported |
| Nesting.NestedIs | src/vibe/materialize/writer.py:65-76 | the first path below an earlier one holds nothing, and if a file goes there, the earlier path was a file that was moved away |
| Nesting.NowBlocked | src/vibe/materialize/writer.py:69-76 | a swap that makes anything on the way to such a path puts a directory in the place of that file |
| Writer.CheckedIsPlain | src/vibe/materialize/writer.py:90-109 | on a tree that passes the check, every path to be changed is a file or absent |
| Writer.MadeWayIsBlocked | src/vibe/materialize/writer.py:149-154 | a file and a directory of its name, concretely: once a/b is in the place of a, a cannot be moved back |
| WriterModel.DeepestIsEmpty | src/vibe/materialize/writer.py:155-157 | why removing the deepest created directory first works: nothing is left in it |
| WriterModel.NothingLeft | src/vibe/materialize/writer.py:138-158 | once everything is back, the tree equals the old one if and only if no created directory is left |
| Overlay.InstalledAt | src/vibe/materialize/writer.py:65-76 | the applied tree, file by file, for operations in path order: new contents at their paths, nothing below, all else as before |
| Nesting.ValidIsTopdown | src/vibe/materialize/changeset.py:94-99 | sorted, unique paths never put a descendant before its ancestor |
| Overlay.CheckPassesIff | src/vibe/materialize/writer.py:90-109 | a path passes the concurrency check if and only if it is as it was built from, or is confused with it: an absent file and the text <absent> |
| Overlay.CheckIs | src/vibe/materialize/writer.py:90-109 | the whole outcome of the check, told by the tree: the first path with bytes that are no text, or else all paths that are not as they were, in order, or else none |
| Overlay.ChangesAreNoticed | src/vibe/materialize/writer.py:90-109 | any other change to a listed path since the build stops the apply |
| Overlay.AppearanceGoesUnnoticed | src/vibe/materialize/changeset.py:13 | the confusion is real: a concrete tree in which a new file goes unnoticed |
| Overlay.FreshlyBuiltPassesIff | src/vibe/materialize/writer.py:90-109 | on the tree it was built from, a ChangeSet passes the check if and only if no proposed path is a directory |
| Overlay.BuiltThenApplied | src/vibe/materialize/changeset.py:156-178 | building then applying gives every proposed path its desired content, or what it had if observed |
| Overlay.OthersAreUntouched | src/vibe/materialize/writer.py:65-76 | and touches no other file |
| Overlay.RebuiltIsUnchanged | src/vibe/materialize/changeset.py:181-188 | building again from the same proposals succeeds, every operation is unchanged, and nothing is left to apply |
| Overlay.InstalledDirs | src/vibe/materialize/writer.py:65-76 | an apply makes no directory but those above its new files, and removes none but what its operations replace |
| Overlay.CreatedThenDeletedIff | src/vibe/materialize/writer.py:65-76 | creating a file and deleting it again gives back the tree if and only if its directory was there |
| Overlay.DirsAfter | src/vibe/materialize/writer.py:65-76 | the directories after building and applying owned files are the old ones and those above the files, exactly |
| AgentsMd.FindPositions | src/vibe/materialize/agents_md.py:56-64 | the search loop returns the marker's positions, left to right, without overlaps |
| AgentsMdTheorems.NoOverlap | src/vibe/materialize/agents_md.py:56-64 | occurrences of the markers never overlap, because a marker opens with its only < |
| AgentsMdTheorems.MergeAcceptsIff | src/vibe/materialize/agents_md.py:21-34 | a merge succeeds if and only if the file has no marker, or exactly one block |
| AgentsMdTheorems.OutsideIsKept | src/vibe/materialize/agents_md.py:21-34 | every byte outside the block is kept in order, with only newlines added around a first block |
| AgentsMdTheorems.MergedIs | src/vibe/materialize/agents_md.py:13-49 | a merge from end to end: without markers the file, a gap of newlines, and the block; with one block the same file around a new one; between the markers the lines of the managed text, each ended by the file's own newline, without empty ones at the end |
| AgentsMdTheorems.SourceIs | src/vibe/inspect/repository.py:90-106 | what is hashed of a file: its text without the block and the newline behind it, stripped of newlines at the end, and one newline |
| AgentsMdTheorems.MergedIsWellFormedIff | src/vibe/materialize/agents_md.py:13-34 | the result has one ordered pair of markers if and only if the managed text holds no marker |
| AgentsMdTheorems.LastMergeWinsIff | src/vibe/materialize/agents_md.py:13-49 | merging twice is merging once with the last text, if and only if the first merge does not flip the file's newline |
| AgentsMdTheorems.StripUndoesMergeIff | src/vibe/inspect/repository.py:90-106 | stripping a merged file gives what stripping the original gives, if and only if the newline does not flip |
| AgentsMdTheorems.BlockAloneIsBlank | src/vibe/inspect/repository.py:66-68 | a file with nothing but the block counts as no source |
| SourceDigest.FeedHash | src/vibe/inspect/repository.py:62-73 | the hash is fed the stream of the counted files, or a length does not fit in eight bytes |
| SourceDigest.IsSourceIff | src/vibe/inspect/repository.py:80-86 | the excluded files: in or at anything called .git, in .ai-project or .agents/skills at the top, or named like the checkpoint database |
| SourceDigest.VisibleIs | src/vibe/inspect/repository.py:62-68 | a file counts as it is, but AGENTS.md without its block, and not at all if nothing but space is left of it |
| SourceDigest.StreamIs | src/vibe/inspect/repository.py:69-72 | each file adds the length of its path, the path, the length of its content, the content |
| SourceDigest.BigEndianAt | src/vibe/inspect/repository.py:69-72 | a length is eight bytes, the most significant first |
| SourceDigest.StreamIsInjective | src/vibe/inspect/repository.py:69-72 | two lists of files give the same stream only if they are the same |
| SourceDigest.SameStreamIff | src/vibe/inspect/repository.py:51-73 | whatever order files are found in, two repositories give the same stream if and only if their visible sources are the same |
| SourceDigest.MergeIsInvisibleIff | src/vibe/inspect/repository.py:62-106 | writing the managed block changes the visible sources if and only if it flips the newline of a file that is not blank |
| Checkpoints.CheckpointStore.Create | src/vibe/workflows/checkpoints.py:113-126 | inserts a row unless its run or checkpoint id is taken |
| Checkpoints.CheckpointStore.Replace | src/vibe/workflows/checkpoints.py:152-177 | replaces a row only at the revision it was loaded at, and never its interview columns |
| Checkpoints.CheckpointStore.SaveInterviewProgress | src/vibe/workflows/checkpoints.py:70-94 | changes the interview columns only |
| Checkpoints.StatementsAre | src/vibe/workflows/checkpoints.py:70-177 | when each statement fails and with which error, and that it changes one row only |
| InitGraph.AcceptedIff | src/vibe/workflows/init_graph.py:45-153 | which calls are accepted: by the status and, for an advance, the one next stage, for a resume the digest, for a completion the last stage |
| InitGraph.TransitionIs | src/vibe/workflows/init_graph.py:45-168 | what an accepted call changes, field by field; a call that brings values gives each of them its new value and leaves the others, and no other call touches them |
| InitHistory.ConfirmedIsLast | src/vibe/workflows/init_graph.py:162-168 | in every interleaving the value of a key is that of the last call that won with one for it, and there are no other keys |
| InitGraph.InitializationGraph.Advance | src/vibe/workflows/init_graph.py:45-68 | its outcome and the table it leaves, with any work of other owners between its load and its write; the side effect runs exactly when the checks pass; what it confirms is in the row afterwards, beside the other values as they were |
| InitGraph.InitializationGraph.Retry | src/vibe/workflows/init_graph.py:114-124 | likewise, and the confirmed values stay |
| InitGraph.InitializationGraph.Cancel | src/vibe/workflows/init_graph.py:126-136 | likewise, from every status that is not final |
| InitGraph.InitializationGraph.Complete | src/vibe/workflows/init_graph.py:138-153 | likewise, only at verify, and what it confirms is in the row afterwards, beside the other values as they were |
| InitGraph.PauseThenResume | src/vibe/workflows/init_graph.py:85-101 | pausing and resuming gives back the checkpoint two revisions on, and is refused on another repository |
| InitGraph.FailThenRetry | src/vibe/workflows/init_graph.py:103-124 | failing and retrying gives back the checkpoint without its error, one attempt on |
| InitHistory.ProgressSurvives | src/vibe/workflows/checkpoints.py:70-111 | loading the interview progress gives what was saved last, in every interleaving with calls of the graph, starts and crashes |
| InitHistory.CallsAreSteps | src/vibe/workflows/init_graph.py:155-159 | a call is a load step and a swap step of the interleaving machine |
| InitHistory.OwnersStepsAre | src/vibe/workflows/init_graph.py:45-68 | a load remembers what it saw and would write and runs the side effect of an accepted advance; swap and crash forget it; no other call is touched |
| InitHistory.WinsIff | src/vibe/workflows/checkpoints.py:152-177 | equal revision means equal row: a call wins if and only if its run's checkpoint is the one it loaded |
| InitHistory.StepKeeps | src/vibe/workflows/init_graph.py:31-168 | every step of any owner keeps every run's history linear |
| InitHistory.RunsAreLinear | src/vibe/workflows/init_graph.py:31-168 | in every interleaving of any owners, each row is a legal transition of the row just before it, numbered by its revision |
| InitHistory.HistoryLaws | src/vibe/workflows/init_graph.py:18-168 | along a history no stage is skipped or undone, digest and ids are constant, confirmed keys only grow, final rows are last, attempts count the retries |
| InitHistory.CompletedRunsAreWhole | src/vibe/workflows/init_graph.py:138-153 | a completed run has been through all nine stages, and no further step of anyone changes its row |
| InitHistory.LosersChangeNothing | src/vibe/workflows/checkpoints.py:174-177 | a call that loses leaves the table as it was |
| InitHistory.OneWinnerPerCheckpoint | src/vibe/workflows/checkpoints.py:152-177 | of two calls that loaded the same checkpoint at most one wins, whatever happens between |
| InitHistory.LosersMayHaveActed | src/vibe/workflows/init_graph.py:60-61 | a concrete run in which both owners' side effects happen and one checkpoint is written |
| Scenarios.BuildPhaseIds | src/vibe/workflows/task_graph.py:41-63 | the growing list is the plan's phases |
| Scenarios.ValidatedIs | src/vibe/commands/run.py:170-199 | the model can only raise the level; approval is required if and only if the final level is high or above; the mode follows the level |
| Scenarios.ClassifiedIs | src/vibe/workflows/scenarios.py:144-250 | which requests are high, critical and low risk, told by every single scope, sensitivity, reversibility, operation and scenario; and exactly which need an approval or a rollback, and which write |
| Scenarios.ValidatedLevel | src/vibe/commands/run.py:170-199 | with the model's opinion the level is the greater of the two, told level by level, and mode and approval follow it |
| Scenarios.PlanIs | src/vibe/workflows/task_graph.py:12-78 | which phases a plan has, by level and by whether something is written, in the one order there is, with an approval asked for at the approval phase only |
| Scenarios.ClassificationIsMonotone | src/vibe/workflows/scenarios.py:144-187 | a request that goes further in any factor, with an opinion at least as high, is never classified lower and never loses an approval or rollback |
| Scenarios.FastNeedsNeither | src/vibe/workflows/scenarios.py:144-187 | fast mode never needs an approval or a rollback |
| Scenarios.ImplementIsGuarded | src/vibe/workflows/task_graph.py:41-63 | in every compiled plan implement comes after the required approval and rollback, once, and before verify |
| TaskRunner.TaskRunner.Run | src/vibe/workflows/task_runner.py:158-278 | one session, fresh or resumed, with any crash, pause or failing provider: the saved checkpoint fits the plan and agrees with the log, only approved phases run, and a session without trouble completes the plan |
| TaskRunner.TaskRunner.Advance | src/vibe/workflows/task_runner.py:201-273 | a changed repository pauses the run, else a refused approval does, and otherwise exactly one phase runs and is recorded with its own result, complete and with every condition met; in a process that lives, each failure has its own error |
| TaskRunner.RunSessions | src/vibe/workflows/task_runner.py:158-278 | any sequence of sessions keeps that invariant |
| TaskRunner.CompletedIsWhole | src/vibe/workflows/task_runner.py:257-277 | a completed checkpoint has every phase in order, each with a result that verifies it |
| TaskRunner.EarlierWereRecorded | src/vibe/workflows/task_runner.py:201-273 | a phase runs only when all earlier ones were recorded since the last fresh start |
| TaskRunner.RecordedOnce | src/vibe/workflows/task_runner.py:257-273 | between two fresh starts a phase is recorded once |
| TaskRunner.FactsAreTheirs | src/vibe/workflows/task_runner.py:258-258 | the confirmed facts are those of all results, each once |
| TaskRunner.FactsOnlyGrow | src/vibe/workflows/task_runner.py:258-258 | in the order in which they first came |
| TaskRunner.ImplementIsAuthorised | src/vibe/workflows/task_graph.py:41-63 | in every run of every compiled plan, implement runs only after a required approval was given and recorded and a required rollback was recorded |
| JsonLines.CutOfConcat | src/vibe/codex/jsonrpc.py:214-226 | cutting more bytes goes on from the tail of those before |
| JsonLines.CutOfJoined | src/vibe/codex/jsonrpc.py:214-226 | lines ended by newlines come back as they were, so framing has only one result |
| JsonRpc.JsonRpcClient.ReadStdout | src/vibe/codex/jsonrpc.py:214-233 | for every cutting into chunks, and whatever other tasks do to the client between any two lines, the reader leaves the state of routing the whole stream's non-blank lines and tail up to the first malformed one; which lines are handed over depends on the bytes alone |
| JsonRpc.JsonRpcClient.RouteLine | src/vibe/codex/jsonrpc.py:246-290 | what each kind of message does, and that a malformed one changes nothing |
| JsonRpc.JsonRpcClient.Register | src/vibe/codex/jsonrpc.py:112-131 | the next id and an empty slot, or the terminal error, or that the client is closing; a failed send fails the transport |
| JsonRpc.JsonRpcClient.Fail | src/vibe/codex/jsonrpc.py:302-308 | wakes every waiter with the first error, and does nothing afterwards |
| JsonRpcTheorems.IdsAreNeverReused | src/vibe/codex/jsonrpc.py:113-116 | over every run the ids handed out are 1, 2, 3 and so on |
| JsonRpcTheorems.RoutedIs | src/vibe/codex/jsonrpc.py:277-290 | a message changes at most the slot with its own id; a late or unknown response changes nothing |
| JsonRpcTheorems.ResponseArrives | src/vibe/codex/jsonrpc.py:277-290 | a response wakes the request it is for, which then returns the very result, or the very code, message and data, or that there is neither; an error that came before keeps its place; nothing else changes |
| JsonRpcTheorems.CarriesSomethingIff | src/vibe/codex/jsonrpc.py:351-361 | a response to a waiting request is malformed if and only if its error is not an object with an integer code and a text |
| JsonRpcTheorems.StrayResponses | src/vibe/codex/jsonrpc.py:277-282 | a response to nobody changes nothing, and one with an odd id is malformed |
| JsonRpcTheorems.ServerMessages | src/vibe/codex/jsonrpc.py:266-275 | notifications and requests of the server go behind those in their queue, with method, parameters and id; or they are malformed |
| JsonRpcTheorems.RequestIs | src/vibe/codex/jsonrpc.py:112-116 | a request waits under the next number, unless the client is not started, is closing or has failed |
| JsonRpcTheorems.FailureArrives | src/vibe/codex/jsonrpc.py:302-308 | the first failure is what everybody returns who still waits, and later ones change nothing |
| JsonRpcTheorems.ReturningForgets | src/vibe/codex/jsonrpc.py:121-131 | whoever returns, woken or out of time, is forgotten, and nobody else |
| JsonRpcTheorems.ResponseIsReturned | src/vibe/codex/jsonrpc.py:104-131 | over whole runs: a request whose response has come, and that neither gives up nor is answered again, returns exactly that if it wakes before the transport fails |
| JsonRpcTheorems.ResultsAreTheirOwn | src/vibe/codex/jsonrpc.py:104-131 | over every run a request returns a result only if a response with its id brought it while it waited, and an error only from such a response or from the terminal failure |
| JsonRpcTheorems.TerminalIsPermanent | src/vibe/codex/jsonrpc.py:193-199 | the first terminal error never changes, every waiter has been woken with an error, and no new one registers |
| JsonRpcTheorems.ArrivalSurvivesIff | src/vibe/codex/jsonrpc.py:306-308 | what has arrived survives a failure if and only if the transport had failed before or it was that very error |
| JsonRpcTheorems.MalformedIff | src/vibe/codex/jsonrpc.py:246-290 | a message is malformed if and only if it would be in any state, or it has a malformed error object and the request it answers waits |
| JsonRpcTheorems.ReaderReportsIff | src/vibe/codex/jsonrpc.py:227-233 | under any orderly work of other tasks, the reader sets the terminal error and wakes all if and only if a full line was malformed, or the stream ended outside closing with a good tail; and it never replaces an earlier one |
| JsonRpcTheorems.SomeEndsAreSilent | src/vibe/codex/jsonrpc.py:227-231 | at the end of any stream while closing, and after a malformed tail, no transport error reaches those who wait |
| Install.BuildInstallPlan | src/vibe/remote/install.py:82-165 | the plan, or the first of the refusals, of the specification function; the rows below say what that is |
| PackageFiles.PlannedIff | src/vibe/remote/install.py:90-123 | a plan is made if and only if the candidate is pinned, verified and below L4, the package is what the digest was taken of, no earlier install is in the way, and every written path is safe, written once and not a file of other bytes |
| PackageFiles.RefusedIff | src/vibe/remote/install.py:90-95 | which of the first three refusals it is, and what a plan carries over of candidate, package and commands |
| PackageFiles.FilesArePlanned | src/vibe/remote/install.py:104-113 | for each file of the package exactly one operation, which writes its content |
| PackageFiles.FilesAreInstalled | src/vibe/remote/install.py:104-113 | and after an install the file is there with its content, whatever the commands did, unless it was there before; then it is as they left it |
| PackageFiles.PackageTextIs | src/vibe/remote/install.py:221-227 | the digest is taken of the one file, or of paths and contents in the order of paths, each ended by a NUL |
| PackageFiles.SameTextIff | src/vibe/remote/install.py:221-227 | two packages of several files, none of them with a NUL, give the same text if and only if they have the same files in any order |
| PackageFiles.NulsConfuse | src/vibe/remote/install.py:221-227 | with a NUL in a content, different packages can give the same text |
| InstallTexts.PlanWrites | src/vibe/remote/install.py:97-149 | beside its files, a plan writes the lock with its provider entered, the audit log with a line added, the transaction, and nothing else |
| InstallTexts.EntriesAre | src/vibe/remote/install.py:295-326 | the entries it makes for its provider, field by field, before and after the preflight |
| InstallTexts.ProviderIdIs | src/vibe/remote/install.py:285-292 | the provider's id: one word for each kind, and the name |
| InstallTexts.PassedIff | src/vibe/remote/install.py:329-352 | an install counts as done if and only if the first provider of its id in the lock has passed with its very digest |
| InstallTexts.LockedProvidersAre | src/vibe/remote/install.py:355-366 | the providers of a lock are those its text loads to; without such a text there are none |
| InstallTexts.UniversalIsLines | src/vibe/remote/install.py:399-399 | reading text gives its lines with line feeds between them |
| InstallTexts.TransactionIs | src/vibe/remote/install.py:393-407 | the transaction names capability, provider and reference, and records the text of each written path, once, in path order |
| InstallTexts.WrittenPathsAre | src/vibe/remote/install.py:121-125 | the written paths: the package's, the lock, the audit log and one transaction named by the provider |
| Install.BuildTreeCommit | src/vibe/remote/install.py:255-273 | one proposal for each differing file outside .git; it fails if and only if such a path is not normal or a file there is not text |
| Install.CommitReaches | src/vibe/remote/install.py:255-273 | applying that commit gives the staged files outside .git, leaves .git alone, and has exactly the old directories and those above written files |
| Install.CommittedIsOne | src/vibe/remote/install.py:255-273 | which is one tree, to the last node |
| Install.ExecuteInstall | src/vibe/remote/install.py:168-215 | whatever commands, preflight and scan do: without approval, or after an install that passed, nothing is written; otherwise the root is the tree of committing the verified staged tree, or untouched unless the last rollback failed; and it succeeds when nothing fails or stands in the way |
| InstallTexts.StagedIff | src/vibe/remote/install.py:185-194 | how staging ends, told by the commands alone: a stale copy or a failed command, a failed preflight, a failed scan, a capability that does not resolve |
| InstallTexts.LockIsWritten | src/vibe/remote/install.py:195-208 | the text of the lock after an install: the scanned inventory's digest, and the passed entry among the providers of the staged lock |
| InstallTexts.AuditIsWritten | src/vibe/remote/install.py:375-386 | the text of the audit log after an install: what was there, the planned line, the installed line |
| InstallTexts.CopyIs | src/vibe/remote/install.py:187-187 | the copy has everything but what is in or at something called .git |
| InstallTexts.RetargetIs | src/vibe/remote/install.py:236-252 | for the copy the same is proposed as for the project |
| InstallTexts.CommitWrites | src/vibe/remote/install.py:255-273 | a commit has an operation for exactly the files outside .git that differ, each with its new text, or none if it is gone |
| InstallLaws.UniversalKeepsIff | src/vibe/remote/install.py:399 | reading text back changes nothing if and only if it has no carriage return |
| InstallLaws.RenderKeeps | src/vibe/remote/install.py:355-372 | a render keeps the lock sorted and unique, replaces one provider and keeps the others |
| InstallTexts.LockIsInOrder | src/vibe/remote/install.py:366-372 | its providers are in the order of their ids as text |
| InstallLaws.LastEntryWins | src/vibe/remote/install.py:355-372 | after any sequence of renders each provider is its last entry |
| InstallTheorems.FinalLock | src/vibe/remote/install.py:195-208 | the install's own entry goes into the lock last, whatever its commands did |
| InstallTheorems.InstallLocks | src/vibe/remote/install.py:195-208 | the lock after an install with any commands: its entry in what was planned, if that was new to the root, else in what the commands left |
| InstallTheorems.EmptiedLockStays | src/vibe/remote/install.py:195-208 | that case is real: planned over the very same lock, a command that empties the lock drops every other provider |
| InstallTheorems.CompletedLocksStay | src/vibe/remote/install.py:195-208 | over a lock of completed installs the plan is always new, and an install leaves such a lock |
| InstallTheorems.LocksOfCompletedInstalls | src/vibe/remote/install.py:195-208 | so from there on no command of any sequence of installs has a say in the lock |
| InstallTheorems.LockOfLastEntries | src/vibe/remote/install.py:195-208 | over any sequence of installs in whose lock the commands have no say, the lock stays sorted and unique and holds each provider's last entry |
| InstallTheorems.RepeatedInstallIsNoOp | src/vibe/remote/install.py:182-183 | after any install, with any commands, its own check says that it has passed |
| InstallTheorems.AuditIsAppended | src/vibe/remote/install.py:375-386 | an install adds exactly two lines to the audit log, whatever its commands do to it |
| InstallTheorems.InstallTouchesOnly | src/vibe/remote/install.py:121-149 | an install without commands writes no file but those its transaction records |
| InstallTheorems.TransactionIsNew | src/vibe/remote/install.py:393-407 | a transaction is never the file it replaces, because it quotes it |
| InstallTheorems.InstallRecords | src/vibe/remote/install.py:393-407 | an install leaves its transaction at its path, whatever its commands do |
| InstallTheorems.TransactionIsFoundIff | src/vibe/remote/install.py:389-390 | a transaction is where an uninstall looks if and only if the name has no slash |
| InstallTheorems.InstallIsFound | src/vibe/commands/uninstall.py:83-104 | for a name with no transaction yet, exactly one is found afterwards, unless commands write transactions of their own |
| InstallTheorems.OthersAreFound | src/vibe/commands/uninstall.py:83-104 | and no transaction of another name comes up |
| Uninstall.LoadTransaction | src/vibe/commands/uninstall.py:83-104 | succeeds if and only if exactly one file records the capability |
| Uninstall.UninstallCapability | src/vibe/commands/uninstall.py:31-80 | success is the recorded reversal after a trial that clears the capability; a trial that fails or still resolves it is refused with the root unchanged; it succeeds when nothing fails or stands in the way |
| InstallTexts.ReversalIs | src/vibe/commands/uninstall.py:42-52 | an uninstall proposes every recorded path as it was recorded, in its own name |
| InstallTheorems.UninstallRestoresIff | src/vibe/commands/uninstall.py:42-78 | an uninstall right after an install restores every file outside .git, if and only if none of the recorded files held a carriage return and the commands kept to them |
| InstallStacks.DirsOfInstall | src/vibe/remote/install.py:255-273 | an install leaves the old directories and adds those above recorded files |
| InstallStacks.UndoneDirs | src/vibe/commands/uninstall.py:42-78 | an uninstall leaves the directories as they are |
| InstallStacks.UninstallRestoresTreeIff | src/vibe/commands/uninstall.py:42-78 | an uninstall right after an install gives back the very tree outside .git, if and only if moreover the directory of every recorded path was there before |
| InstallStacks.FirstUninstallLeavesDirectory | src/vibe/commands/uninstall.py:42-78 | so undoing the first install of a project leaves its directory of transactions behind |
| InstallStacks.StackUnwinds | src/vibe/commands/uninstall.py:31-80 | a stack of installs uninstalled from the top gives back the files of every level, if and only if each install keeps to files that read back |
| InstallStacks.StackUnwindsExactly | src/vibe/commands/uninstall.py:31-80 | and the very trees, if and only if each also found its directories |
| InstallStacks.StackComesDown | src/vibe/commands/uninstall.py:31-80 | with fresh distinct names and capabilities that did not resolve before their install, any stack comes down: at every level the transaction is found, nothing is in the way, the trial clears, and the files are back |
| InstallStacks.StackComesDownExactly | src/vibe/commands/uninstall.py:31-80 | to the very trees, if the installs found their directories |
| InstallStacks.UninstallIsOne | src/vibe/commands/uninstall.py:31-80 | and there is no other way down |
| InstallTheorems.ClearsIff | src/vibe/commands/uninstall.py:53-76 | told before the trial: an uninstall goes ahead if and only if its trial can be applied and the capability did not resolve before the install |
| InstallTheorems.UpdatedIsNotCleared | src/vibe/commands/uninstall.py:73-76 | so after an update the trial goes back to the older version, still resolves, and the uninstall is refused |
| InstallTheorems.OutOfOrderDropsEntries | src/vibe/commands/uninstall.py:42-53 | an uninstall after any number of later installs takes the lock back to before its own install |
| Migrations.MigrationRegistry.Register | src/vibe/migrations/registry.py:72-86 | accepts one step of one version per starting version, and keeps the registry sound |
| Migrations.MigrationRegistry.LatestVersion | src/vibe/migrations/registry.py:88-92 | the greatest target, in its plain spelling |
| Migrations.MigrationRegistry.Migrate | src/vibe/migrations/registry.py:94-130 | terminates for every registry built through register and is the walk to the latest version |
| Migrations.MigratedThrough | src/vibe/migrations/registry.py:109-130 | every payload on the way is what the registered migration made of the one before, the entries say so, and the outcome is the last; an error comes exactly where a migration is missing or returns what it must not |
| Migrations.RefusedIff | src/vibe/migrations/registry.py:100-108 | without a numeric version, and beyond the latest, nothing runs |
| Migrations.VersionsAreDecimal | src/vibe/migrations/registry.py:179-182 | versions are decimal numbers, and leading zeros do not count |
| Migrations.MigratedIs | src/vibe/migrations/registry.py:109-130 | success leaves one entry per version passed, chained by version and digest, and ends at the latest |
| Migrations.MigratingAgainIsIdle | src/vibe/migrations/registry.py:94-130 | migrating the outcome again adds no entry |
| Migrations.OddSpellingIsMissing | src/vibe/migrations/registry.py:110-115 | a version that only differs from the latest in spelling, such as 02, ends in an error |
| Practices.ApplyPackConflicts | src/vibe/practices/evaluator.py:95-116 | collects the directives of all applicable packs and settles them one by one |
| Practices.EvaluatePracticePacks | src/vibe/practices/evaluator.py:34-75 | the whole evaluation, as the specification function says |
| Practices.LastPackCounts | src/vibe/practices/evaluator.py:43-44 | of several packs with one id, the last counts |
| Practices.SurvivorsAgree | src/vibe/practices/evaluator.py:104-116 | no directive is left between two surviving packs, survivors are unchanged, and some pack survives if none conflicts with itself |
| Practices.NoConflictIsLeft | src/vibe/practices/evaluator.py:95-116 | no surviving pack declares a conflict with a surviving pack |
| Practices.DroppedLost | src/vibe/practices/evaluator.py:104-116 | a dropped pack lost to one that was still there: the target of a directive that prefers its source, or the source of one that prefers its target |
| Practices.DirectivesInOrder | src/vibe/practices/evaluator.py:95-103 | directives are settled in the order of the packs that declare them, and those of one pack as it declares them |
| Practices.FailsIff | src/vibe/practices/evaluator.py:107-111 | the evaluation fails if and only if an error directive finds both its packs still there, and names them |
| Practices.MergedIs | src/vibe/practices/evaluator.py:130-149 | required if any contribution is, else recommended if any is, else optional, unless overridden; all contributions once, by pack and requirement, in whatever order they came |
| Practices.OverrideForIs | src/vibe/practices/evaluator.py:119-127 | the override for a capability is the one that names it |
| Practices.RepeatedIff | src/vibe/practices/evaluator.py:119-127 | overrides are refused if and only if two name one capability |
| Practices.EvaluationFailsIff | src/vibe/practices/evaluator.py:34-66 | an evaluation fails over packs that clash, or else over a repeated override, and for no other reason |
| Practices.EvaluatedIs | src/vibe/practices/evaluator.py:67-75 | one requirement for each capability contributed and not switched off, from all contributions of all survivors and of nobody else |
| Practices.EvaluatedInOrder | src/vibe/practices/evaluator.py:67-75 | in the order of capabilities, none of them twice |
| Practices.EvaluationForgetsOrder | src/vibe/practices/evaluator.py:43-46 | packs with distinct ids may come in any order |
| Inventory.Scan | src/vibe/inventory/service.py:40-111 | scans in order, groups by id, decides each group and sorts both results |
| Inventory.EveryItemIsAccountedFor | src/vibe/inventory/service.py:74-96 | an id is accepted at most once, and every scanned item is accepted, shadowed by an equal project copy, or reported |
| Inventory.AcceptedIs | src/vibe/inventory/service.py:142-155 | a group is accepted as its only member or as the one project copy of items that all do the same |
| Inventory.AcceptedIff | src/vibe/inventory/service.py:78-85 | and every such group is accepted |
| Inventory.ScannedIs | src/vibe/inventory/service.py:44-68 | every discovery gives its item or a diagnostic, every adapter that cannot discover gives one, and there is nothing else |
| Inventory.DuplicateIs | src/vibe/inventory/service.py:86-96 | a duplicate names its id and the adapters that reported it, in order |
| Inventory.AcceptedAreInOrder | src/vibe/inventory/service.py:98-104 | accepted items come out in the order of their ids, so the sort at the end changes nothing |
| Inventory.DiagnosticsAreInOrder | src/vibe/inventory/service.py:105-125 | diagnostics come out in the order of their keys, with none lost or added |
| Inventory.DiagnosticOrderIs | src/vibe/inventory/service.py:118-125 | that order: by adapter, then failed discoveries, failed scans by locator, and duplicates by id |
| Inventory.ScanForgetsOrder | src/vibe/inventory/service.py:40-111 | adapters with distinct ids may come in any order |
| Resolver.ResolveRequirement | src/vibe/resolver/local.py:149-233 | the sifting loop and its three endings |
| Resolver.ResolveLocalCapabilities | src/vibe/resolver/local.py:73-95 | the rows of all requirements in order |
| Resolver.OneRowEach | src/vibe/resolver/local.py:149-233 | every matching candidate gets exactly one row, and nothing else does |
| Resolver.ThreeOutcomes | src/vibe/resolver/local.py:187-233 | exactly one selected, which has the greatest score with its context, then the fewest permissions, then the first id, of all that are eligible; or all deferred, if all are memories out of context; or exactly one gap |
| Resolver.RowsAre | src/vibe/resolver/local.py:160-233 | what the row of each candidate says: why it is out, that it is selected, or which winner it ranks below |
| Resolver.RowsInOrder | src/vibe/resolver/local.py:302-303 | rows behind the selected one come by capability, then by reason |
| Resolver.MatchingIs | src/vibe/resolver/local.py:76-83 | the candidates for a requirement are those that offer it, in the order of their ids |
| Resolver.PlanIs | src/vibe/resolver/local.py:75-95 | the plan takes the requirements in their order, each with all that matches it |
| Resolver.PlanForgetsOrder | src/vibe/resolver/local.py:75-95 | the plan does not depend on the order of inventory or requirements |
| Discovery.Deduplicate | src/vibe/remote/discovery.py:194-208 | the dictionary and the list give the specified records, for any case folding |
| Discovery.MergeKeepsIdentity | src/vibe/remote/discovery.py:211-245 | merging keeps the identity, whichever field it came from |
| Discovery.RecordsAreDistinct | src/vibe/remote/discovery.py:195-205 | no two records share an identity |
| Discovery.RecordIsItsGroup | src/vibe/remote/discovery.py:195-205 | a record is its identity's candidates merged from left to right |
| Discovery.GroupRecordIs | src/vibe/remote/discovery.py:221-245 | the record is based on the group's first most trusted member |
| Discovery.LeaderIsFirst | src/vibe/remote/discovery.py:222-232 | that member is more trusted than all before it and no less than any |
| Discovery.GroupCountsAre | src/vibe/remote/discovery.py:234-239 | its counts are reached by some member and exceeded by none, and it is official if and only if a member is |
| Discovery.GroupTierIs | src/vibe/remote/discovery.py:221-232 | its tier is the best of the group: official, then verified publisher, then community, then general search |
| Discovery.FieldsAreMembers | src/vibe/remote/discovery.py:240-245 | and what identifies it comes from a member |
| Discovery.IdentityIs | src/vibe/remote/discovery.py:211-218 | identified by the repository without slashes at its end, or else the cross reference, or else the digest, case folded |
| Discovery.RecordsInOrder | src/vibe/remote/discovery.py:206-208 | what comes out is in the order of references |
| Discovery.DeduplicationIsIdempotent | src/vibe/remote/discovery.py:194-208 | deduplicating twice is deduplicating once |
| Discovery.NothingIsLost | src/vibe/remote/discovery.py:194-208 | every identity and every candidate without one is still there |
| ChangeSets.FileProposals | src/vibe/materialize/changeset.py:113-115 | the dictionary holds every proposal under its path, or the first duplicate is reported |
| Writer.AtomicWriter.Attempt | src/vibe/materialize/writer.py:63-79 | staging, swapping in and clearing away: success is the operations' tree, failure leaves what the rollback can account for |
| Writer.AtomicWriter.Swap | src/vibe/materialize/writer.py:63-87 | the attempt, undone if it fails |
| InitGraph.InitializationGraph.Start | src/vibe/workflows/init_graph.py:31-40 | creates the fresh checkpoint, at inspect, running, with nothing confirmed, or fails without a change |
| InitGraph.InitializationGraph.Revise | src/vibe/workflows/init_graph.py:70-84 | its outcome and the table it leaves, with any work of other owners in between; what it confirms is in the row afterwards, beside the other values as they were |
| InitGraph.InitializationGraph.Pause | src/vibe/workflows/init_graph.py:85-91 | likewise |
| InitGraph.InitializationGraph.Resume | src/vibe/workflows/init_graph.py:93-101 | likewise, only on the same repository digest |
| InitGraph.InitializationGraph.Fail | src/vibe/workflows/init_graph.py:103-112 | likewise |
| Checkpoints.CheckpointStore.Load | src/vibe/workflows/checkpoints.py:128-150 | the row's checkpoint, or not found |
| TaskRunner.TaskRunner.Open | src/vibe/workflows/task_runner.py:167-199 | a resumed run keeps its progress and takes the repository's present state; a fresh one starts over |
| TaskRunner.TaskRunner.Execute | src/vibe/workflows/task_runner.py:223-273 | exposes, runs, verifies and records one phase |
| TaskRunner.TaskRunner.Save | src/vibe/workflows/task_runner.py:356-360 | all or nothing, whenever the process dies |
| TaskRunner.TaskRunner.Finish | src/vibe/workflows/task_runner.py:275-278 | completes the checkpoint and then records the outcome |
| JsonRpc.JsonRpcClient.RouteResponse | src/vibe/codex/jsonrpc.py:277-290 | a waiter wakes with the result, with the code, message and data of the error, or with the news that there is neither; a malformed error object changes nothing |
| JsonRpc.JsonRpcClient.Finish | src/vibe/codex/jsonrpc.py:122-131 | returns the error if there is one, else the result, and forgets the request |
| JsonRpc.JsonRpcClient.DrainBuffer | src/vibe/codex/jsonrpc.py:222-226 | routes the complete lines of the buffer and keeps the tail |
| Install.SaveBefore | src/vibe/remote/install.py:393-399 | the texts of the paths in order, or the first that is not text |
| Install.ReadByteTree | src/vibe/remote/install.py:276-282 | every file outside .git with its bytes |
| Install.Stage | src/vibe/remote/install.py:185-212 | the staged tree of the specification function, and it is reached when nothing fails or stands in the way |
| Install.Commit | src/vibe/remote/install.py:213-214 | the diff is applied: the root is the tree of that commit, or untouched unless the rollback failed |
| InstallSuccess.InstallSucceeds | src/vibe/remote/install.py:185-213 | an install that is planned, has a clear way for all it writes, commands that leave it room, and then resolves, can be applied to the copy and is staged |
| InstallSuccess.CommitIsWritable | src/vibe/remote/install.py:213-214 | and its commit can be written, always without commands, and with commands whose changes can be |
| InstallSuccess.RecordedAreFiles | src/vibe/remote/install.py:121-125 | every recorded path is a text file once an install without commands went through |
| InstallSuccess.InstalledIsClosed | src/vibe/materialize/writer.py:65-76 | where there is room, the applied tree is a tree again |
| InstallSuccess.ReversalSucceedsIff | src/vibe/commands/uninstall.py:53-78 | the reversal of an install has a clear way as long as its files stand, and goes ahead if and only if the capability did not resolve before the install |
| Inventory.GroupById | src/vibe/inventory/service.py:70-72 | the dictionary holds each id's items in the order they were scanned |
| Inventory.Judge | src/vibe/inventory/service.py:74-96 | one decision for each id, in order |
| Practices.Settle | src/vibe/practices/evaluator.py:104-116 | settles the directives one by one |

## Left out

- Writer.AtomicWriter.ApplyChangeset: symbolic links and paths that resolve outside the root; the stage and the backup are trees beside the root, so their own names in it are not modelled, nor is a stage that a failed second mkdtemp leaves.
- ChangeSets.BuildChangeset: the ChangeSet's own digest, the dry-run text; source, reason and sensitivity are one note.
- SourceDigest.FeedHash: reading files, and the UTF-8 encoding of paths and contents.
- Install.BuildInstallPlan: the errors of an unknown kind; source, reason and sensitivity of a proposal are one note.
- Install.ExecuteInstall: the inside of preflight and inventory scans; commands change the copy only; another process changing the root during an install.
- Uninstall.UninstallCapability: the audit row written to the database afterwards.
- InstallStacks.StackComesDown: packages whose commands change files outside their transaction, or remove files in it.
- InitGraph: the schema migration of the SQLite file, and busy timeouts.
- TaskRunner.TaskRunner.Run: resuming with another plan of the same id, which the source does not detect; the context capsule's text, prompts and the outcome's contents; a completed run that is resumed records its outcome again.
- JsonRpc.JsonRpcClient.ReadStdout: the blocking of the reader on a full queue of notifications, process start and exit, the text of error messages, the lock that orders writes, and the task group that an exception of the reader cancels.
- Migrations: artifact discovery, and migrate_artifact.
- Practices.EvaluatePracticePacks: matching packs and exceptions against project facts; the packs given are the applicable ones, with suppressed requirements removed.
- Inventory.Scan: the inventory digest, and the text of error messages.
- Resolver.ResolveRequirement: scores inside reasons, gap recommendations, mandatory packs of an organisation policy.
- Discovery.Deduplicate: fields that merging copies from the primary without change are represented by name and digest.
- Discovery of candidates from sources, ranking by score, interview questions, skill binding, doctor checks, readiness, run status, drift and the command line: not part of this model.
