# OpenCode Advance: a verified model of its hard parts

OpenCode Advance (`oca`) rewrites configuration files it does not own alone: it merges
declared settings into `opencode.json`, writes several files in one apply with backups and
rollback, keeps a managed block in shell rc files, checks port assignments, and supervises
long-running processes. This project models that behaviour in Dafny and proves what it
promises, over every input, every failure the model lets happen, and every interleaving.

`dafny verify dfyconfig.toml` checks everything.

## How it is organised

The modules follow the source files.

- `Documents`, `Merge`, `ArrayMerge`: JSON values, the deep merge, the list merges.
- `AtomicFile`, `Slot`: one atomic write with bounded backups. `AtomicFile` says what a write
  does to a target and the files named after it; `Slot` is the protocol, one file operation at a
  time, with a journal of every state a crash can leave.
- `Apply`, `Disk`: the multi-target apply with rollback, as a function and as the loops that
  change the disk. `Undo`: exactly when a failed apply is undone. `Reports`: what a run tells its
  caller and leaves alone. `ApplyLock`: any number of applies sharing the lock.
- `Sections`, `Overlap`: the section transformers on the document, apart and on shared keys.
  `Plan`, `ComposePlan`: composing a plan over one running document. `Reapply`: planning again over
  the result. `OneByOne`: taking the targets in turn instead. `ComposedUndo`: undoing a composed plan.
- `Ports`, `PortProblems`, `PortLoops`: the two port validators, when they are silent, which problems
  they report, and their loops. `ShellBlock`, `Uninstall`, `ShellQuote`: the managed block,
  the install and uninstall flows, and quoting.
- `Watchdog`, `Supervisor`, `SessionGate`, `Maintain`, `ProbeAll`: the state machines.
- `Common`, `Ordering`, `Picking`: shared datatypes, sorting, the newest elements of a set of epochs,
  and lists picked from other lists.

Where the source changes state step by step the model does too: classes with the source's
fields, methods with its loops, each proved equal to a specification function; the theorems are
about that function, and say what it gives in terms that do not name it. Failures are inputs: an
`Env` says which steps of a write fail, which files cannot be removed and which bytes an
interrupted write leaves, and nothing else is assumed.

Assumptions of the whole model: printing a JSON object is a function that parsing inverts; the
clock that names backups is strictly increasing and ahead of every existing backup; the
surroundings (canonical spelling of a path, staleness of a worktree path, normalised working
directories) are fixed functions.

## What the proofs found

- A failed apply is not always undone, even when rollback meets no fault of its own. It is, wherever
  and however the apply fails, if and only if the first write to every path is backed up or finds no
  file, and the backups the plan makes of a path, with one more if the failing write would make one,
  never outnumber the bound; a path of which the plan makes none always has room
  (`FailedApplyIsUndone`; for a given failure, `UndoneWhen`). All of that can be told from the plan
  and the files before the call. A first write whose backup is suppressed, or a non-noop write of
  bytes already on disk, makes rollback delete the file (`FirstWriteIsLost`); one backed-up write
  more than backups are kept prunes the backup that rollback needs (`OneWriteTooMany`). A path that
  starts absent makes no backup on its first write.
- A composed plan writes `opencode.json` once per target, so with the default of three backups it can
  have more changes than are kept (`ComposedApplyIsUndone`, `TooManyChanges`). The comment on
  `ComposeApplyPlan` says that applying everything shares that code path; in fact only
  `cmd/oca/diff.go` composes, and `cmd/oca/apply.go` plans and applies target by target. Each such
  plan is always undone when it fails (`TargetApplyIsUndone`), and where nothing fails both routes end
  with the same files (`ComposedEqualsInTurn`).
- The validators do not reject negative `base_port` or `group_port`; exactly those
  configurations pass with ports outside the window (`QuietNeedsNonNegative`).
- A managed block whose content holds the end sentinel closes early. What was written is then not
  read back, nor is it when the content ends in a newline, and in no other case
  (`ReadsBackWhatWasWritten`). Writing again after an end sentinel leaves a remainder, unless
  the file's own block was never closed, for then every write leaves the file alone (`LastWriteWins`,
  `UnclosedIsLeft`);
  and removing does not undo the install (`RemoveUndoesInstall`). A fresh block is reported edited in
  the same two cases as it is not read back, except when it reads back as nothing, or as malformed
  because a block starts after the end sentinel (`FreshBlockEdited`).
- `Start` looks for a foreign server only when there is no metadata: stale metadata makes it
  launch without looking (`RefusesForeign`, `StaleMetadataSkipsTheCheck`). It leaks a process when
  the server does not come up and ignores the one signal it is sent (`StartUnique`), so two such
  starts on a fresh host leave two servers (`StartLeaksTwice`); `Stop` drops the metadata of a process
  that outlives both signals (`StopUnique`, `StopLeavesUnnamed`).
- A comment in `bumpSession` says checking stops once the bumps are used up; the code goes on and
  warns at every tick (`WarnsAgain`). The model follows the code.
- The comment on `Apply` says rollback removes newly created targets; the code removes every
  target whose write left no backup. The model follows the code.
- Sections that write the same top-level key, which the pass-through of extra keys in
  `internal/render/toggles.go` allows, can break the fixpoint of apply (`OverlapBreaksFixpoint`) but
  need not (`OverlapMayBeConsistent`): re-apply is a noop if and only if no two sections declare
  conflicting values, whatever the file held (`ChainFixpointExactly`, `ReapplyIsNoop`).

## Model

| member | source | states |
|---|---|---|
| Merge.MergePathwise | internal/render/merge.go:38-99 | path by path, the declared side decides what it covers and puts its own value there, the existing side what it misses, and a declared section unites the keys of both |
| Merge.MergeTwice | internal/render/merge.go:80-99 | merging the same declaration again changes nothing, at any depth, whole-value overwrites included |
| Merge.MergeMap | internal/render/merge.go:82-99 | the recursive in-place loop, in any key order, gives the merge the path-by-path laws are about |
| Merge.MergeEntry | internal/render/merge.go:84-96 | one iteration: recurses only where both sides are objects of the kind the merge descends into |
| Merge.MergeObject | internal/render/merge.go:48-79 | parses, merges and prints; a file that does not parse is an error |
| Merge.McpEntries | internal/render/merge.go:8-45 | every declared server is as declared, every other entry and top-level key as before |
| Merge.MergeMCP | internal/render/merge.go:10-45 | the loop computes that merge, with both error cases |
| ArrayMerge.MergeLaws | internal/render/array_merge.go:90-136 | the result is the declared list followed by a subsequence of the existing strings; nothing kept repeats a declared entry or is stale; kept, stale and duplicate entries are exactly the existing ones |
| ArrayMerge.MergeAgain | internal/render/array_merge.go:62-150 | merging the result again gives the same list |
| ArrayMerge.NothingNew | internal/render/array_merge.go:116-125 | a second merge counts no added entry |
| ArrayMerge.MergeArray | internal/render/array_merge.go:62-150 | the loops compute that merged document; pruned, added and preserved count the positions of stale entries, of declared ones nothing there spelled, and of kept ones; exactly a file that does not parse and an entry that is not an array are errors |
| ArrayMerge.CanonicalSet | internal/render/array_merge.go:91-95 | the set of spellings decides equality with a listed entry |
| ArrayMerge.CountAdded | internal/render/array_merge.go:115-125 | counts the declared entries no existing entry spells |
| ArrayMerge.MergeArrayTwice | internal/render/array_merge.go:62-150 | merging a list into a document twice is merging it once |
| ArrayMerge.MergesList | internal/render/array_merge.go:62-136 | a list can be merged exactly when the key is absent or holds an array; the result is root with, under that key, the declared entries and then, in order, exactly the strings that no declared entry spells and that are not stale; an absent key gets the declared list alone |
| ArrayMerge.MergesWatcher | internal/render/merge.go:126-168 | the watcher merge fails exactly on something that is not a watcher; an absent one becomes the declared list and nothing else, one that is there keeps its other keys |
| ArrayMerge.Judged | internal/render/array_merge.go:99-112 | an entry is a duplicate if some declared entry has its canonical spelling, stale if it is none and is to be pruned, and kept otherwise |
| ArrayMerge.MergeWatcherIgnore | internal/render/merge.go:116-174 | the method computes that watcher merge, with the three error cases |
| ArrayMerge.MergeWatcherTwice | internal/render/merge.go:116-174 | merging the watcher list twice is merging it once |
| AtomicFile.WriteTarget | internal/render/atomic.go:30-84 | whatever fails, the target holds its old bytes when the write reports failure and exactly the new ones otherwise |
| AtomicFile.WriteBackups | internal/render/atomic.go:21-55 | finished backups are never altered; the one new backup holds the old bytes and is made exactly when different bytes are replaced with backups on |
| AtomicFile.WriteEpochs | internal/render/backup.go:43-76 | after pruning, exactly the newest epochs and the new one are left |
| AtomicFile.FailureEpochs | internal/render/backup.go:43-76 | a write that fails keeps at least the newest maxBackups - 1 backups |
| AtomicFile.WriteFailsWhen | internal/render/atomic.go:30-84 | a write fails exactly when a step it needs does: clearing half-written backups, reading, saving what is there if it differs and backups are on, or installing the new bytes if they differ |
| AtomicFile.BackupMadeWhen | internal/render/atomic.go:39-55 | a backup is made, stays and is reported, whether or not the write then fails, exactly when there is something to save and saving works |
| AtomicFile.ScratchIsGone | internal/render/atomic.go:60-83 | the scratch file is gone unless the write failed after creating it and it could not be unlinked |
| AtomicFile.TempsLeft | internal/render/backup.go:35-41 | the half-written backups left are those that could not be unlinked, or the one this write could not finish |
| AtomicFile.WindowStep | internal/render/atomic.go:39-55 | one successful write slides the history of backups by one, or leaves it alone if the bytes are unchanged |
| AtomicFile.SlidingWindow | internal/render/atomic.go:30-84 | from a start without backups, the backups hold exactly the last maxBackups replaced contents, oldest first |
| Slot.Slot.WriteAtomic | internal/render/atomic.go:30-84 | after every single file operation, failing or not, the target holds the old or the new bytes, and new bytes that replaced different ones have a finished backup of them; the outcome is the specified one |
| Slot.Slot.Replace | internal/render/atomic.go:44-84 | the same for the part that replaces |
| Slot.Slot.BackUp | internal/render/atomic.go:44-54 | prunes, writes a temporary and renames it, never touching the target |
| Slot.Slot.Install | internal/render/atomic.go:60-83 | only the last rename touches the target; scratch files are removed unless unlinking fails |
| Slot.Slot.PruneBackups | internal/render/backup.go:43-76 | unlinks exactly the backups that are not among the newest keep, carrying on past failures |
| Slot.Slot.RemoveBackups | internal/render/backup.go:25-33 | removes all it can and fails exactly when one could not be removed |
| Slot.Slot.CleanupOrphanBackupTemps | internal/render/backup.go:35-41 | removes the half-written backups of crashed runs |
| Slot.VictimsOf | internal/render/backup.go:48-75 | sorting newest first and dropping the first keep gives exactly the epochs outside the newest keep |
| Apply.RollbackView | internal/render/apply.go:79-103 | where no undo of a path fails, only the first write to it decides what is left there; undos of other paths may fail |
| Apply.ErrorsDescend | internal/render/apply.go:79-103 | rollback reports its errors from the last result to the first |
| Apply.RollbackTells | internal/render/apply.go:79-103 | every reported error has its cause, and every backup that is gone, unreadable or cannot be written back is reported |
| Apply.FailedApplyRestores | internal/render/apply.go:38-103 | after a failure with an error-free rollback, a path has its original content if and only if it was not written, was absent, or its first write made a backup; otherwise it is gone |
| Reports.NothingWritten | internal/render/apply.go:22-35 | a dry run and a run that does not get the lock change nothing; the one lists every target as not written, the other fails without results |
| Reports.ThreeBackupsByDefault | internal/render/apply.go:19-21 | a bound of 0 is a bound of 3 |
| Reports.ResultsTell | internal/render/apply.go:38-65 | the results name the targets in order and say which were written; a failing run ends with the target that failed |
| Reports.BackupsTell | internal/render/apply.go:40-63 | a result names a backup exactly when its op replaced other bytes, unsuppressed and with backups on |
| Reports.WritesStay | internal/render/apply.go:47-61 | what a run without rollback leaves: every write before the failing one, or all of them |
| Reports.NoLitter | internal/render/apply.go:38-65 | no scratch file is left unless one could not be unlinked, and no path outside the plan is touched |
| Undo.MadeCount | internal/render/apply.go:38-65 | a run makes exactly as many backups of a path as can be counted on the plan beforehand |
| Undo.RollbackSucceedsWhen | internal/render/apply.go:45-103 | without faults of its own, rollback reports no error if and only if for every path the backups the plan makes of it before the failing op, and one more if that op gets as far as pruning for its own, fit the bound, or the one too many could not be unlinked |
| Undo.UndoneWhen | internal/render/apply.go:38-103 | for each failure: every path is back and rollback reports no error if and only if every first write was recoverable and every path's backups had that room |
| Undo.PruningKeepsRun | internal/render/backup.go:43-76 | while there is room, pruning keeps every backup the run has made |
| Undo.FailedApplyIsUndone | internal/render/apply.go:38-103 | every failing run of a plan is undone, wherever it fails, if and only if a condition on the plan, the files before the call and MaxBackups holds |
| Undo.FirstWriteIsLost | internal/render/apply.go:40-43 | a suppressed or unchanged first write followed by a failure: rollback deletes a file that was there and reports no error |
| Undo.OneWriteTooMany | internal/render/apply.go:38-65 | for every MaxBackups, a plan with one backed-up write more has a failure whose rollback fails |
| ComposedUndo.ComposedApplyIsUndone | internal/render/plan.go:428-455 | a composed plan is always undone if and only if its ops on opencode.json are, told from which of them change and which suppress their backup |
| ComposedUndo.TooManyChanges | internal/render/plan.go:428-455 | it is not when more changes are backed up than backups are kept |
| ComposedUndo.TargetApplyIsUndone | cmd/oca/apply.go:305-307 | a plan of a single target, as the apply command makes them, is undone wherever it fails |
| Disk.Disk.WriteAtomic | internal/render/atomic.go:30-84 | on the disk as a whole, other paths are untouched and every journalled state is crash-safe |
| Disk.Disk.WriteFile | internal/render/apply.go:93-95 | a plain write of a target: on the way, and when it fails, the file may hold any bytes |
| Disk.Disk.RemoveTarget | internal/render/apply.go:98-100 | removes a target and keeps its backups |
| Disk.Disk.UndoResult | internal/render/apply.go:82-100 | restores from the backup, or removes, one result; each state on the way is gone, torn, or what a backup that is still there holds |
| Disk.Disk.Rollback | internal/render/apply.go:79-103 | the backward loop is the specified rollback, errors collected and not cut short, and every state it passes through is one of those |
| Disk.Disk.WriteTargets | internal/render/apply.go:38-65 | the forward loop; at every moment every target holds its original content or one the plan gives it |
| Disk.Disk.ApplyPlan | internal/render/apply.go:17-66 | a dry run and a lock timeout change nothing and report what NothingWritten says; otherwise writes and rollback together are the specified run, each target holds its original or a planned content at every moment before rollback begins, and from then on only targets being undone change |
| ApplyLock.AcquireApplyLock | internal/render/lock_unix.go:18-39 | succeeds if and only if one of the attempts up to the first after the deadline finds the lock free |
| ApplyLock.StaysOnTheWay | internal/render/apply.go:38-103 | every prefix of a holder's steps is on the way to the result of the whole apply |
| ApplyLock.Serialisable | internal/render/apply.go:32-65 | in every execution of any number of runs, the files are what the runs that acquired the lock make of them one after the other; a run that timed out wrote nothing |
| Sections.TransformFrame | internal/render/plan.go:239-426 | a section transformer leaves every key it does not own as it was |
| Sections.TransformLocal | internal/render/plan.go:239-426 | its effect and its failure depend only on the keys it owns |
| Sections.TransformTwice | internal/render/plan.go:239-426 | each of the eleven transformers is idempotent |
| Sections.WorksWhen | internal/render/plan.go:239-426 | each target fails exactly on a value of another kind under its own key |
| Sections.TransformMakes | internal/render/plan.go:239-426 | what each of the eleven targets makes of a document, keys that are there and keys that are not |
| Sections.AbsentBecomes | internal/render/plan.go:239-426 | an absent key becomes exactly what is declared for it |
| Sections.ChainCombines | internal/render/plan.go:434-455 | with disjoint sections a chain succeeds exactly when each target alone would, and gives each section what that target alone gives it |
| Sections.ChainOrderIrrelevant | internal/render/plan.go:434-455 | order and repetition of the targets do not matter |
| Sections.ChainFixpoint | internal/render/plan.go:428-455 | on the result of a chain every target of it changes nothing |
| Sections.OverlapBreaksFixpoint | internal/render/toggles.go:99-105 | a concrete overlap for which the fixpoint fails |
| Overlap.AgreeIsExact | internal/render/merge.go:80-99 | merging two declarations in turn leaves something the first changes nothing in if and only if the two agree, whatever was merged into |
| Overlap.SettlesWhen | internal/render/plan.go:239-426 | a target changes nothing in a document if and only if every value it claims is already as it wants it |
| Overlap.CompatibleKeeps | internal/render/plan.go:239-426 | what one target changes nothing in, it still changes nothing in after another that agrees with it on shared keys |
| Overlap.ChainFixpointExactly | internal/render/plan.go:434-455 | after a chain every target of it changes nothing if and only if no two declare conflicting values under a shared key: one condition on the declarations, for all documents |
| Overlap.DisjointIsConsistent | internal/render/plan.go:239-426 | sections with keys of their own never conflict |
| Overlap.OverlapMayBeConsistent | internal/render/toggles.go:99-105 | sections that share a key need not conflict |
| Plan.ComposeLinks | internal/render/plan.go:428-455 | the ops on opencode.json form one chain: each Before is the preceding After, from disk to the final document, and an op is a noop exactly when the two agree |
| Plan.DocOpsFollowTargets | internal/render/plan.go:239-455 | opencode.json gets one merge or noop from each target in turn but the skills and an empty toggles section; only that of the plugins suppresses its backup, when one has a sync command |
| Plan.ComposeIsChain | internal/render/plan.go:434-455 | the composed document is the chain of transformers on the parsed file, with the same failures |
| Plan.ComposeOrderIrrelevant | internal/render/plan.go:434-455 | with disjoint sections any permutation of the targets gives the same document |
| Plan.ApplyLeavesDoc | internal/render/plan.go:434-455 | a successful apply of the composed plan leaves exactly the composed document |
| Plan.ComposeFixpointExactly | internal/render/plan.go:428-455 | no target changes the composed document if and only if none conflict |
| OneByOne.ComposeRefinesOneByOne | internal/render/plan.go:428-455 | the composed document is the one that planning and applying each target in turn from disk ends with |
| OneByOne.FailuresAgree | internal/render/plan.go:440-446 | the first target that cannot be planned in turn is the first that cannot be composed |
| OneByOne.ComposedEqualsInTurn | cmd/oca/apply.go:87-130 | applying the composed plan and taking the targets in turn leave the same content in every file |
| ComposePlan.TransformDoc | internal/render/plan.go:241-426 | the switch arms call the merge each section needs |
| ComposePlan.PlanSkillsOps | internal/render/skills.go:32-115 | one op for each skill file, noop when its bytes are already there |
| ComposePlan.ComposeTargetOps | internal/render/plan.go:239-426 | the ops and the next document of one target |
| ComposePlan.PlanForTarget | internal/render/plan.go:209-237 | the plan of one target over the files on disk |
| OneByOne.PlanTells | internal/render/plan.go:14-237 | the plan of each target op by op: paths, order, before and after, noop, merge or write, backup suppression; and when there is none |
| ComposePlan.ComposeApplyPlan | internal/render/plan.go:434-455 | the loop over targets gives the specified plan and stops at the first error |
| Reapply.ApplyLeavesFiles | internal/render/plan.go:34-58 | after a successful apply every file written whole holds its content |
| Reapply.ReapplyIsNoop | internal/render/plan.go:239-455 | planning the same targets again over what a successful apply left succeeds with a noop for every op on every file if and only if no two sections declare conflicting values |
| Reapply.DisjointReapplyIsNoop | internal/render/plan.go:239-455 | in particular when no two sections write the same top-level key |
| Reapply.SecondApplyIsIdentity | internal/render/apply.go:38-65 | applying that second plan then changes no file and no backup |
| PortProblems.ServersReported | internal/config/validate.go:178-203 | a missing, out-of-range or repeated port is reported if and only if the servers have it, the owner being the first server in order of names on that port |
| PortProblems.GroupsReported | internal/config/validate.go:345-467 | every kind of group problem is reported if and only if the groups have it, a collision naming the first claim on the port, in order of groups, listener before slots |
| PortProblems.OneReport | internal/config/validate.go:170-173 | the order of the report, by name and then by kind and slot, makes it the only one with these problems |
| Ordering.LeqIs | internal/config/validate.go:169-173 | names are sorted as in a dictionary: a prefix first, else by the first difference |
| PortProblems.DecimalReads | internal/config/validate.go:457 | slot numbers are decimal without leading zeros |
| PortLoops.ValidateServers | internal/config/validate.go:162-203 | the loop over sorted names reports exactly those problems, in that order |
| PortLoops.ValidateSlotGroups | internal/config/validate.go:320-470 | the loops over groups and slots report exactly those problems, in that order; of several servers on a claimed port one is named |
| PortLoops.TakePort | internal/config/validate.go:415-453 | one claim collides exactly with a server's port, naming the server, or an earlier claim, and the first claim keeps the port |
| PortLoops.TakeSlots | internal/config/validate.go:433-466 | all slots of a group, with name collisions |
| PortLoops.TakeListener | internal/config/validate.go:415-431 | the group port |
| PortLoops.ValidateGroup | internal/config/validate.go:349-467 | one group |
| PortLoops.ServerPorts | internal/config/validate.go:326-335 | the positive ports of the declared servers, each with a server that declares it |
| PortLoops.ValidatePorts | internal/config/validate.go:162-470 | both validators together are silent, with no negative group port, if and only if the configuration is sane in the sense of QuietMeansSane |
| Ports.QuietMeansSane | internal/config/validate.go:320-470 | no errors and no negative group ports if and only if all ports lie in the window and differ, the required fields are set, and no synthesized slot name is a declared server |
| Ports.QuietNeedsNonNegative | internal/config/validate.go:385-405 | what the validators let through lies in the window if and only if no group has a negative port |
| Ports.NegativePortSlipsThrough | internal/config/validate.go:385-405 | a concrete configuration outside the window that passes |
| Ports.WindowBoundsCounts | internal/config/validate.go:14-17 | servers plus, for every group, its slots and its listener are at most 51 |
| ShellBlock.OcaIsWellMarked | internal/install/shellprofile.go:15-21 | the two sentinels have what the other results ask of markers |
| ShellBlock.WriteReplaces | internal/install/shellprofile.go:192-203 | writing replaces the block; the text before and after it is untouched |
| ShellBlock.AppendKeepsFile | internal/install/shellprofile.go:180-190 | without a block the file is kept whole, gets a newline only if it lacks one, and the block follows on lines of its own |
| ShellBlock.UnclosedIsLeft | internal/install/shellprofile.go:192-199 | a block that was never closed is neither replaced nor removed, and reading it fails |
| ShellBlock.ExtractReads | internal/install/shellprofile.go:128-156 | reading gives the text between the first sentinels without the newlines around it, and fails exactly on a second block |
| ShellBlock.RemoveTakesOut | internal/install/shellprofile.go:243-280 | removing joins what is before and after the block's line and leaves exactly one newline at the end, or nothing of nothing |
| ShellBlock.NothingToRemove | internal/install/shellprofile.go:128-132 | a file without a block has none to read and is left as it is by removal |
| ShellBlock.ReadsBackWhatWasWritten | internal/install/shellprofile.go:128-204 | in a file with no block or one well-formed block, what was written is read back if and only if it has no end sentinel and no trailing newline |
| ShellBlock.LastWriteWins | internal/install/shellprofile.go:180-204 | for every file, writing twice is writing the second content if and only if the first has no end sentinel or the file's block was never closed |
| ShellBlock.RemoveUndoesInstall | internal/install/shellprofile.go:180-280 | for a file without a start sentinel, removing the written block gives the file back up to trailing newlines if and only if the content has no end sentinel |
| ShellBlock.FreshReads | internal/install/shellprofile.go:128-204 | what a written block reads back as, for every content: all of it but trailing newlines, or what precedes an end sentinel in it, or malformed when a block starts after that |
| ShellBlock.FreshBlockEdited | internal/install/shellprofile.go:207-240 | a freshly written block is reported edited if and only if it reads back as something and its content has trailing newlines or an end sentinel |
| ShellBlock.DiffTells | internal/install/shellprofile.go:215-231 | a comparison says whether there is a block and whether it is the expected one, or why it cannot be read |
| Uninstall.GuardedUninstall | internal/install/flow.go:176-201 | without force, one unreadable, malformed or edited block anywhere keeps every rc file as it was; otherwise it does what the forced uninstall does |
| Uninstall.UninstallTells | internal/install/flow.go:153-221 | the answer names the first rc file that stops the uninstall and why, or exactly the rc files whose blocks were taken out, in order, up to the first that cannot be written |
| Uninstall.SweepEffect | internal/install/flow.go:203-221 | the removal phase takes the block out of exactly the files it lists, stops at the first file it cannot write, and leaves the rest alone |
| Uninstall.InstallThenUninstall | internal/install/flow.go:114-130 | install and then uninstall gives every rc file back up to trailing newlines |
| Uninstall.InstallTells | internal/install/flow.go:114-130 | whatever fails, the block is written into exactly the rc files before the first that refuses it |
| Uninstall.Home.WriteBlock | internal/install/shellprofile.go:161-204 | reads, replaces and writes one rc file, or leaves it alone; a file without a block keeps its text whole in front of the new block |
| Uninstall.Home.RemoveBlock | internal/install/shellprofile.go:243-280 | removes the block from one rc file, or leaves it alone |
| Uninstall.Home.Install | internal/install/flow.go:114-132 | the write loop, up to the first failure |
| Uninstall.Home.CheckBlocks | internal/install/flow.go:176-201 | the first phase finds the first obstacle |
| Uninstall.Home.TakeOutBlocks | internal/install/flow.go:203-217 | the second phase is the specified sweep, up to the first rc file that cannot be written |
| Uninstall.Home.Uninstall | internal/install/flow.go:153-221 | both phases together are the specified outcome |
| ShellQuote.QuotedReads | internal/install/shellprofile.go:306-308 | inside a word, a quoted text adds exactly itself |
| ShellQuote.QuoteShape | internal/install/shellprofile.go:306-308 | text without quotes is put between two; at each quote the string is closed, an escaped one follows, and it is opened again |
| ShellQuote.QuoteRoundTrip | internal/install/shellprofile.go:306-308 | a quoted text reads as exactly one word, itself, when it has no NUL, and otherwise as nothing |
| ShellQuote.AssignmentRoundTrip | internal/install/shellprofile.go:28-43 | a variable assigned a quoted value, as the four slots of the template are, reads as one word that holds the value |
| ShellQuote.EnvFileRoundTrip | internal/render/env_file.go:15-35 | the whole environment file reads as one export of each variable with its value, in order, whatever quotes, blanks or line ends the values hold; with a NUL in a value, as nothing |
| Watchdog.TrackersKnow | plugins/oca/src/watchdog.ts:177-232 | the trackers record exactly which sessions are busy since their last idle or deletion, and the time of the last activity |
| Watchdog.TracksKnown | plugins/oca/src/watchdog.ts:177-232 | a session is tracked exactly while one of its statuses was reported and it was not deleted since |
| Watchdog.StatusIsLastTold | plugins/oca/src/watchdog.ts:177-232 | what each kind of event does to the trackers, and that it leaves the other sessions alone |
| Watchdog.RestartMeansHang | plugins/oca/src/watchdog.ts:88-151 | a tick restarts a session if and only if the pane is its own with bumps left, it has been busy, and nothing stirred for the idle timeout |
| Watchdog.WarningMeansSpent | plugins/oca/src/watchdog.ts:102-114 | it warns instead if and only if the bumps are used up |
| Watchdog.SwitchedOff | plugins/oca/src/watchdog.ts:128-133 | a watchdog that is off or has no timeout issues no command and leaves the pane file alone |
| Watchdog.CountsRestarts | plugins/oca/src/watchdog.ts:94-125 | between resets the stored count grows by exactly the restarts issued and never passes maxBumps unless it started beyond |
| Watchdog.RestartsAfterReset | cmd/oca/watchdog.go:117-141 | after a reset at most maxBumps restarts follow |
| Watchdog.ExhaustedStaysTruthful | plugins/oca/src/watchdog.ts:102-120 | over any run a pane marked exhausted has used its bumps |
| Watchdog.PaneTells | plugins/oca/src/watchdog.ts:88-126 | over any run without resets the pane file is marked exhausted exactly if the last command was a warning, its last bump is the time of the last restart, its count has grown by the restarts, and the rest is as it was |
| Watchdog.ResetClears | cmd/oca/watchdog.go:133-137 | a reset clears count, time and mark and nothing else |
| Watchdog.WarnsAgain | plugins/oca/src/watchdog.ts:102-114 | an exhausted session that stays hung is warned about at every tick |
| Watchdog.RestartsOwnSession | plugins/oca/src/watchdog.ts:144-149 | every restart is of the session the pane belongs to |
| Watchdog.Dog.HandleWatchdogEvent | plugins/oca/src/watchdog.ts:177-232 | the event handler is the specified step |
| Watchdog.Dog.TouchAll | plugins/oca/src/watchdog.ts:201-212 | message activity resets the timer of every busy session and of no other |
| Watchdog.Dog.BumpSession | plugins/oca/src/watchdog.ts:88-126 | writes the record and issues one command, or neither |
| Watchdog.Dog.CheckHang | plugins/oca/src/watchdog.ts:128-151 | visiting every tracker, in any order, issues at most one command |
| Watchdog.Dog.ResetBumps | cmd/oca/watchdog.go:117-141 | the reset command |
| Supervisor.SignalsOnlyOwn | internal/temporal/supervise.go:102-243 | over any run, whatever fails, every signalled process group was launched by Start |
| Supervisor.StopSignals | internal/temporal/supervise.go:212-226 | Stop sends SIGTERM to the process the metadata names, and SIGKILL after it exactly when that was sent and did not end it; otherwise nothing |
| Supervisor.StartSignals | internal/temporal/supervise.go:151-155 | Start sends SIGTERM to the process it created exactly when that did not come up |
| Supervisor.KillsOnlyAfterTerm | internal/temporal/supervise.go:102-243 | over any run every SIGKILL is directly preceded by a SIGTERM to the same process |
| Supervisor.StopEnds | internal/temporal/supervise.go:183-235 | Stop ends at most the process the metadata names |
| Supervisor.StartMakes | internal/temporal/supervise.go:147-156 | Start touches no process but the one it creates, which lives unless it ended or was terminated |
| Supervisor.StartFailures | internal/temporal/supervise.go:102-175 | each failure of Start has its one cause, and how far it got |
| Supervisor.StopFailures | internal/temporal/supervise.go:183-235 | each failure of Stop has its one cause and keeps the metadata |
| Supervisor.StatusWithoutProbes | internal/temporal/supervise.go:390-425 | what is reported before anything is probed |
| Supervisor.RestartFailures | internal/temporal/supervise.go:238-243 | a restart whose stop fails starts nothing |
| Supervisor.StartUnique | internal/temporal/supervise.go:102-175 | Start keeps at most one live launched server, named by the metadata, if and only if it neither fails to stop one that did not come up nor to write its metadata |
| Supervisor.StopUnique | internal/temporal/supervise.go:183-235 | Stop keeps it if and only if it does not drop the metadata of a server that outlived both signals |
| Supervisor.OneServer | internal/temporal/supervise.go:102-243 | with effective signals and metadata writes, over any run mixed with deaths and with foreign servers that start, at most one launched server is live and the metadata names it |
| Supervisor.StartLeaksTwice | internal/temporal/supervise.go:147-156 | from a fresh host, two starts whose server stays deaf leave two live launched servers |
| Supervisor.StopLeavesUnnamed | internal/temporal/supervise.go:183-235 | from a fresh host, a good start and a stop that is ignored leave a live server without metadata |
| Supervisor.StatusTellsTruth | internal/temporal/supervise.go:390-442 | the reported state tells exactly whether the one launched server is live and healthy, whether stale metadata is left, and whether a foreign server answers |
| Supervisor.StartNeedsNone | internal/temporal/supervise.go:112-121 | a process is created only when no launched server is live |
| Supervisor.StopStops | internal/temporal/supervise.go:183-235 | a successful Stop leaves no metadata and no launched server |
| Supervisor.RestartReplaces | internal/temporal/supervise.go:238-243 | after a successful Restart only the new server can be live |
| Supervisor.RefusesForeign | internal/temporal/supervise.go:115-121 | Start refuses a foreign server if and only if there is no metadata |
| Supervisor.StaleMetadataSkipsTheCheck | internal/temporal/supervise.go:115-121 | with stale metadata it launches beside one |
| Supervisor.Host.EvaluateStatus | internal/temporal/supervise.go:390-442 | the status record filled field by field is the specified one |
| Supervisor.Host.Start | internal/temporal/supervise.go:102-175 | the start sequence with all its failures and that one signal |
| Supervisor.Host.Launch | internal/temporal/supervise.go:139-175 | the part after the process exists |
| Supervisor.Host.Stop | internal/temporal/supervise.go:183-235 | the stop sequence with all its failures and exactly those signals |
| Supervisor.Host.RemoveMetadata | internal/temporal/supervise.go:370-375 | the metadata is gone, or the status says it could not be removed |
| Supervisor.Host.SignalGroup | internal/temporal/supervise.go:270-275 | one signal |
| Supervisor.Host.Restart | internal/temporal/supervise.go:238-243 | Stop, then Start if it succeeded |
| SessionGate.CallerAncestorPids | internal/maintain/session_gate.go:110-125 | the walk ends on any parent data, cyclic or not, with exactly the positive transitive parents of the caller |
| SessionGate.NothingBeyond | internal/maintain/session_gate.go:116-123 | once the next parent is missing or known there are no further ancestors |
| SessionGate.AncestorsDescend | internal/maintain/session_gate.go:110-125 | an ancestor is what a line of listed processes, each the child of the next, leads up to |
| SessionGate.LastRecordCounts | internal/maintain/session_gate.go:111-114 | of several records of a process the last counts |
| SessionGate.InsideByComponents | internal/maintain/session_gate.go:89-95 | a process is in the project if and only if the components of its directory start with those of the project |
| SessionGate.ReportIsExact | internal/maintain/session_gate.go:62-87 | a blocker for every other OpenCode process of the project and for nothing else |
| SessionGate.ReportInOrder | internal/maintain/session_gate.go:62-87 | one blocker for each such process, in the order of the list |
| SessionGate.ReportedOnce | internal/maintain/session_gate.go:62-87 | and one only for each |
| SessionGate.BuildOpenCodeProcessBlockers | internal/maintain/session_gate.go:62-87 | the loop gives that report with the ancestors of the caller |
| SessionGate.CheckSessionGate | internal/maintain/session_gate.go:12-18 | blocked if and only if such a process runs; a blocker is tagged as the caller's if and only if it is an ancestor |
| Maintain.MergeActionsAre | internal/maintain/plan.go:193-221 | exactly the eligible, released candidates are planned |
| Maintain.RebuildActionsAre | internal/maintain/plan.go:263-286 | exactly the enabled, checked-out, drifted plugins are planned |
| Maintain.CleanupActionsAre | internal/maintain/plan.go:234-253 | exactly the removable worktrees are planned |
| Maintain.ActionsInOrder | internal/maintain/plan.go:193-286 | the three kinds of actions, one for each that qualifies and in order: merges on the declared branch or else the one named after the change, rebuilds of drifted plugins, removals of clean, merged, unused worktrees |
| Maintain.BuiltTells | internal/maintain/plan.go:148-179 | a plan is the merges, rebuilds and cleanups asked for; what is left of it when the stack, the archive, a drift check or the worktree list fails |
| Maintain.StopsOnce | internal/maintain/execute.go:27-45 | how far an execution gets is determined by the plan and by which commands work |
| Maintain.Plan.AddMergeCandidates | internal/maintain/plan.go:181-223 | appends the merge actions, each carrying the gate's verdict |
| Maintain.Plan.AddRebuildActions | internal/maintain/plan.go:258-288 | appends exactly the rebuild actions of the plugins before the first drift check that fails, and fails if there is one |
| Maintain.Plan.AddCleanupCandidates | internal/maintain/plan.go:225-256 | appends the cleanup actions |
| Maintain.Plan.Build | internal/maintain/plan.go:125-179 | the plan holds exactly the actions of the inspections up to the first that fails, and building fails if and only if one does |
| Maintain.Plan.ExecutePlan | internal/maintain/execute.go:16-47 | begins actions in order until one is not allowed or fails; with a blocked gate it begins none |
| Maintain.MaintainBehindGate | internal/maintain/execute.go:16-47 | with another OpenCode process of the project running, executing whatever was planned begins nothing and fails |
| ProbeAll.SelectNames | internal/plugin/probe.go:97-107 | exactly the selected, enabled plugins without an npm source, sorted |
| ProbeAll.BoundedParallelism | internal/plugin/probe.go:117-131 | in every interleaving at most cap probes run at once |
| ProbeAll.AtMostAskedFor | internal/plugin/probe.go:42-53 | that is four, or the parallelism asked for if positive |
| ProbeAll.UsesTheParallelism | internal/plugin/probe.go:117-131 | and that many can indeed run at once |
| ProbeAll.ResultsInOrder | internal/plugin/probe.go:109-152 | when all goroutines are done, the i-th result is that of the i-th name, and the error is absent if and only if none failed or was cancelled |
| ProbeAll.ResultTells | internal/plugin/probe.go:55-94 | a result is up to date exactly when both revisions are equal, pinned for a full revision, unknown with its error on failure; the ref is trunk if none is given |
| ProbeAll.FirstErrorStays | internal/plugin/probe.go:127-146 | the first error reported is the one returned |
| ProbeAll.CancelledOnlyLate | internal/plugin/probe.go:122-131 | nothing is cancelled before the deadline |
| ProbeAll.CancelledTells | internal/plugin/probe.go:124-131 | a cancelled plugin is unknown, with the error of the deadline |
| ProbeAll.StepsDescend | internal/plugin/probe.go:122-150 | every step that moves a goroutine brings the end nearer |
| ProbeAll.NoDeadlock | internal/plugin/probe.go:122-151 | until all are done, one of them can move |

## Left out

- File modes: rollback writes back content with the planned mode, not the original one.
- Slot.Slot.PruneBackups: backup names that do not parse as an epoch are not modelled, nor target paths that contain `.bak.`; pruning skips them or, with keep <= 0, removes them.
- JSON text: duplicate keys, number formats, and a file that holds `null`, are not modelled; the root is an object.
- Path canonicalisation and the worktree pattern are parameters.
- ComposePlan.PlanSkillsOps: choosing the skills, ordering their names and walking their directories are left out; the list of files and contents is given.
- ComposePlan.ComposeTargetOps: errors while reading files are left out, and rendering the vision file and the MCP fragments cannot fail.
- The section translators: their output is given, one declared object for each section.
- The texts of reasons and of error messages, the target's name added to a planning error included.
- Serialisable: a crash falls between two whole writes of a run; what a crash inside a write leaves is `Slot.WriteAtomic`.
- Nothing is claimed between planning and locking: the plan is computed before the lock is taken.
- The lock stub of other systems, which excludes nothing; a lock file that cannot be created.
- Transport, type, availability and other checks of `internal/config/validate.go`.
- The unified diff text; the block template, of which only the quoted assignments are modelled.
- Install: directories and prerequisites; writing the environment file and its stamp.
- Watchdog: environment values that are not numbers; the timer itself.
- Concurrent supervisor processes; the waits are answers, not polling loops; reuse of process identifiers.
- Maintain: git, build and reconcile commands are one answer each; the gate is evaluated once, before execution.
- ProbeAll: git calls; retries.
- Health checks, dashboard, migration, redaction, session and tmux commands: mostly glue and single-branch mappings.
