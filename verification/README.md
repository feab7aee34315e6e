# go-makefile: a Dafny model of its stateful core

This project models the parts of the repository whose correctness depends on more than one function,
and proves what its documentation and tests promise about them.

- **The crash-safe install of a set of binaries** (`FileSystem`, `InstallSet`, `Recovery`, `InstallLinks`,
  `InstallStates`, `InstallPromise`, `Rollback`, `Install`, `InstallStaging`, `InstallRuns`,
  `InstallLimits`). A disk maps names to inodes and inodes to files or symlinks. Class `Fs` performs one
  system call at a time, keeps every state the disk has been in, and lets the environment refuse any call.
  A process may be killed in any of those states.
- **The formatting-preserving repair of workflow files** (the modules `Workflow...` hold the specification
  on lines, jobs and files, `Scaffold`, `ScaffoldInputs` and `ScaffoldPasses` the index loops).
- **Provisioning** (`ProvisionLock`, `ProvisionState`, `Provision`): the directory lock as an interleaving
  of system calls, and a directory whose state files never claim more than is there.
- **Smaller cores**: accepting findings under a notice (`Notice`), reuse of builds (`Fingerprint`,
  `Reuse`), the taint loop (`Taint`), the parent map (`ParentMap`), submodule initialization
  (`Submodules`), the replay of make arguments (`MakeContract`, `MakeReplay`), and step outputs (`GitHubOutput`).
- **Shared**: `Options`, `Strings`, `Lines`.

`dafny verify dfyconfig.toml` checks everything.

## Where the code and its documentation differ

The contract at selfupdate/applyall.go:38-46 says that a kill before the marker ends with the old set. The
code reserves an empty backup file first (selfupdate/extract.go:177-184), may copy byte by byte, and
installs new entries that nothing backs up. `Install.InstallCandidates` shows that the states in question
are reached, and `InstallLimits.KilledBeforeCommit` that the contract holds if and only if every install
path held an empty file. `InstallRuns.RunMany` says what holds instead over any number of runs and kills:
the releases that took effect, up to first parts of entries at the paths where a kill left an unfinished
backup, and up to entries that were new.

The code ignores three errors there. What each does to the contract, and exactly when, is said by
`InstallLimits.StuckReservation` (the removal of a reserved name), `InstallLimits.StuckBackup` (the
removal of a backup behind the marker) and `InstallLimits.FailedMarkerWrite` (a marker write that leaves
the marker).

Recovery takes an entry whose backup resolves to the same file for one that was not replaced
(selfupdate/applyall.go:155-165), and drops the backup. A changed link to the same file is therefore not
rolled back: `InstallLimits.ChangedLink` and `InstallLimits.MaskedSymlink` say exactly when.

The lock of provisioning is meant to have one holder. `ProvisionLock.RenameIff` says exactly which renames
break it, and `ProvisionLock.ExitAdmitsTwoHolders` and `ProvisionLock.StaleAdmitsTwoHolders` are runs of
the code with such a rename.

The repair of a workflow file is meant to be idempotent. It is not when a deeper line follows a uses line
and falls into a block that the repair inserts; `WorkflowTwice.RepairFileTwiceIff` is the exact condition.

cmd/go-mk/scaffold.go:933-945 says that one layer of quotes goes from a workflow value; the code, and so the
model, strips all of them.

The theorems about installs assume, each where it is used: no file name plays two roles (`Apart`, checked
by a caller as `WellNamed`); no link leads to a temporary file; and, over whole runs, two entries that one
path may come to hold lead to one file only if they are links that lead out of the set (`LinksDiscerned`,
on the disk before the first run), and the three ignored errors do not occur (`ReliableRemoval`,
`ReliableDiscard`, `CleanMarkerWrite`). That an install succeeds is proved for an environment that refuses
nothing it needs (`Obliging`). The theorems about workflow files assume that every matched uses line lies in
a job of its own (`OwnJobs`).

## Model

| member | source | states |
|---|---|---|
| FileSystem.Fs.Rename | selfupdate/applyall.go:212-219 | one atomic step over names and inodes; a rename between two links to one file succeeds and changes nothing (POSIX.1-2017 rename) |
| FileSystem.Fs.Glob | selfupdate/applyall.go:191-200 | lists exactly the names that extend the prefix, each once, in any order |
| InstallSet.CommonName | selfupdate/applyall.go:191-200 | two glob patterns list a common name if and only if one prefix extends the other |
| InstallSet.WellNamedIsExact | selfupdate/applyall.go:191-200 | the check a caller can make on the names of a set passes if and only if no file name can play two roles |
| InstallSet.MarkerIsNoTemporary | selfupdate/applyall.go:402-404 | the commit marker is never taken for a backup or a candidate |
| Recovery.RecoverBackup | selfupdate/applyall.go:201-224 | one leftover backup is dropped or renamed back as the marker, its position and the same-file test decide; without a marker the path shows the only backup afterwards if and only if the test fires on equal entries alone; from a recoverable disk the result at every path stays what it was; it succeeds when nothing is refused |
| Recovery.RemoveCandidates | selfupdate/applyall.go:226-229 | keeps the result at every path whatever it removes, and leaves no candidate of the path when no removal fails |
| Recovery.RecoverPath | selfupdate/applyall.go:184-230 | cleans one path; every state on the way still promises the same set, and success shows what was promised at that path |
| Recovery.Recover | selfupdate/applyall.go:181-238 | from a recoverable disk, whichever removals fail: every state a kill can leave has the same result and is recoverable again, success puts that result in place, and behind the dropped marker exactly the paths whose backup could not be removed fall back to it; when no removal fails nothing is left over, and on such a disk recovery changes nothing; it succeeds when nothing is refused |
| Recovery.RecoverMany | selfupdate/applyall.go:201-236 | re-entrancy: recovery killed in any of its states and started again any number of times installs the set that the first start would have installed; behind the marker only if removals do not fail |
| Recovery.KeptTransitive | selfupdate/applyall.go:201-236 | interrupted recoveries compose: what two of them keep in turn, both keep together |
| InstallLinks.TracedIsRecoverable | selfupdate/applyall.go:155-165 | while entries are on their way between two generations, links that change included, recovery restores a definite set however often it is killed: every backup, except where the old and the new entry are links that lead out of the set to one file, where the new link stays; no other two entries of a path may lead to one file, which is checked on the disk before the install |
| InstallLinks.DiscernedOutIff | selfupdate/applyall.go:155-165 | entries that lead out of the set pass that check if and only if they are equal, both files, or lead to different files |
| InstallLinks.FinalName | selfupdate/applyall.go:155-165 | where a link of a state in between can lead: to a name in every set of names that is closed under the links any generation may show |
| Install.CopyFile | selfupdate/extract.go:210-233 | a copy made byte by byte: complete on success, and in every state on the way a part of the file under the backup name only; it succeeds when nothing is refused |
| Install.BackupInstalled | selfupdate/extract.go:167-208 | the backup shows what the path shows, or nothing was there; once it has reserved a name, the state with the empty backup has been reached, and every other state differs in the one backup name alone; if no removal works that empty file is what stays; in an environment that refuses nothing but hard links it succeeds, and the name is reserved as soon as it can be |
| InstallStates.KilledInBackup | selfupdate/extract.go:177-204 | a kill inside the backup step keeps the old set, or all of it but the one path whose backup is being made, where recovery installs a first part of the entry that is still in place |
| Install.ReplaceOne | selfupdate/applyall.go:362-378 | backs up one entry and renames its candidate over it, or leaves every name as it was; it succeeds when nothing but hard links is refused |
| InstallStates.ReplaceStep | selfupdate/applyall.go:362-378 | one more replaced entry keeps the promise of the old set |
| InstallStates.UndoStep | selfupdate/applyall.go:350-361 | undoing any one entry keeps the promise of the old set |
| Rollback.AdvancedStep | selfupdate/applyall.go:362-378 | what one replacement changed, up to fresh copies: the fact that rollback inverts |
| Rollback.UndoIsExact | selfupdate/applyall.go:350-361 | undoing the last entry leads back to the disk before it: the prior entry, link or absence of every path, and no backup left |
| Install.Restore | selfupdate/applyall.go:350-361 | the reverse-order rollback: it succeeds when no rename or removal of its steps is refused, and then every name is as before the install, also when install paths repeat, but for the one backup that could not be removed; in every state on the way the old set can be recovered |
| InstallStates.CommitPoint | selfupdate/applyall.go:382-386 | creating the marker is the one step that moves the promise from the old set to the new |
| InstallStates.DropBackup | selfupdate/applyall.go:387-391 | removing a backup behind the marker keeps the promise of the new set |
| InstallStates.MarkerDropped | selfupdate/applyall.go:392-396 | removing the marker once no backup is left keeps the promise of the new set |
| InstallStates.ConcludedIsNew | selfupdate/applyall.go:387-396 | after the marker is gone the new set is what recovery keeps if and only if every path whose backup is left was not changed |
| InstallPromise.ReservationCounts | selfupdate/extract.go:177-184 | a state with the reserved empty backup of an entry with content breaks the promise of the old set |
| InstallPromise.FreshEntryCounts | selfupdate/applyall.go:350-361 | so does a state with a new entry where nothing was |
| Install.DiscardBackups | selfupdate/applyall.go:387-391 | every state of the cleanup keeps the new set behind the marker, whichever removals fail; a backup whose removal always fails stays |
| Install.CleanUp | selfupdate/applyall.go:387-397 | every state before the marker goes promises the new set; behind it exactly the paths whose backup is left fall back, and none does when no removal fails |
| Install.InstallCandidates | selfupdate/applyall.go:343-398 | it succeeds when nothing is refused, hard links aside, and success shows every candidate in place, every other path as it was and no marker, and no backup when removals of backups succeed too. For every behaviour of the environment: a failed install is rolled back exactly unless a step of the rollback is refused; every state before the marker keeps all old entries, up to one unfinished backup, which the end of the run still has only if its removal failed; those states keep exactly the old set if and only if no name was reserved for an entry with content and no entry was new; every state behind a written marker keeps the new set; behind a marker whose write failed the old set is kept if and only if nothing changes |
| InstallStaging.StageOne | selfupdate/install.go:220-247 | writes one release entry as a candidate; no state on the way changes anything but candidates; when nothing is refused it succeeds if the target of a link is there |
| InstallStaging.DrawnOnce | selfupdate/install.go:220-247 | candidates of two install paths are never given one name, since the random part of a temporary name is a number |
| InstallStaging.StageAll | selfupdate/install.go:182-205 | stages a release in order, one fresh candidate for every entry; when nothing is refused it succeeds if and only if no link leads to nothing; whatever happens, no candidate stays unlisted unless its removal is refused |
| InstallRuns.InstallRelease | selfupdate/install.go:163-216 | one run of a release that names any part of the set, from any promised disk, changed links included: when nothing is refused it succeeds if and only if every link of the release leads to a file in the generation before it, and leaves no candidate either way; success shows the new generation with nothing left over; every state promises the new generation, or the one before the run up to one entry whose backup was unfinished and to links that lead out to the same file |
| InstallRuns.KeptHolds | selfupdate/applyall.go:181-238 | recovery keeps the generation that a disk promises |
| InstallRuns.RunMany | selfupdate/install.go:163-216 | any number of runs, each completed, failed or killed in any state it reaches, and then a recovery: the disk holds the first generation with the entries of the releases that took effect, in order, and every completed run did; an entry is a first part of itself only if a run that did not take effect was killed with an unfinished backup of it, a link may be another one to the same file outside the set, and where these hold no entry there may be one of any of the releases; when nothing is refused every run that is not killed completes, provided that its links lead out of the set to a file or to an entry that is always a file |
| InstallLimits.KilledBeforeCommit | selfupdate/applyall.go:38-46 | the documented contract: over all states of an install without the marker, a kill ends with the old set if and only if every install path held an empty file; it succeeds when nothing is refused |
| InstallLimits.StuckBackup | selfupdate/applyall.go:387-392 | an install that succeeds where the backups of some paths can never be removed: those entries fall back, and the set is the new one if and only if no such entry was to be changed; it does succeed when nothing but such a removal is refused |
| InstallLimits.FailedMarkerWrite | selfupdate/applyall.go:382-386 | an install whose marker write fails: the marker is there if it could be created, and then the states with it keep the old set if and only if the install changes nothing |
| InstallLimits.StuckReservation | selfupdate/extract.go:177-204 | an install in which a reserved backup name cannot be removed: when the turn of that entry comes it fails without a marker, and the next recovery keeps the entry if and only if it was empty |
| InstallLimits.TwoBackups | selfupdate/applyall.go:206-211 | with two backups of one path, after a kill between the two steps the next recovery installs the other one, and so keeps what the first had installed if and only if both show one entry |
| InstallLimits.RecoveredInPart | selfupdate/applyall.go:181-238 | recovery over a part of the set settles that part and drops the marker, so a path outside it with its backup left falls back |
| InstallLimits.BackupsDecide | selfupdate/applyall.go:201-224 | in every state before the marker what the backups promise is what recovery installs, except at a path whose old and new entries are links that lead out of the set to one file |
| InstallLimits.ChangedLink | selfupdate/applyall.go:155-165 | a run that changes a link into another one, both leading out of the set, killed before the marker with the new link in place, and recovered: the old link is back if and only if the two did not lead to one file before the install; every run that gets to its marker passes through such a state |
| InstallLimits.MaskedSymlink | selfupdate/applyall.go:212-219 | a run of the install that replaces a file by a link to a file, killed before the marker with the link in place, and recovered: the old file is back if and only if its backup is not a hard link to the file that the link leads to |
| InstallLimits.OwnFileNotDiscerned | selfupdate/applyall.go:155-165 | the check of the links refuses a release that replaces a file by a link to another name of that file |
| WorkflowLine.EntryIsRead | cmd/go-mk/scaffold.go:1287-1290 | a written `key: value` line reads back as content with that indentation, key and value, and never as a uses line |
| WorkflowLine.OpeningIsRead | cmd/go-mk/scaffold.go:1086-1093 | a written `key:` line reads back as a block-form key |
| WorkflowLine.ReadChild | cmd/go-mk/scaffold.go:1069-1080 | a line found by key is content and bears the key: blank lines and comments need no test |
| WorkflowLine.ReadUses | cmd/go-mk/scaffold.go:1030-1039 | a matched uses line is content with the key `uses` |
| WorkflowReading.SkipIff | cmd/go-mk/scaffold.go:1287-1290 | a line is skipped if and only if it is blank or its first character that is no space is a hash |
| WorkflowReading.KeyIff | cmd/go-mk/scaffold.go:1069-1093 | the key of a line is what stands before its first colon, and a line without a colon has none |
| WorkflowReading.ValueForms | cmd/go-mk/scaffold.go:933-945 | a word reads back from an entry whether it is bare or quoted either way, with a note behind it or without |
| WorkflowReading.UsesIff | cmd/go-mk/scaffold.go:1030-1039 | a uses line is one of the reusable workflow if and only if what it uses names that workflow |
| WorkflowBlock.UpsertTwice | cmd/go-mk/scaffold.go:1110-1155 | setting an entry twice is setting it once |
| WorkflowBlock.UpsertReadsBack | cmd/go-mk/scaffold.go:1110-1155 | in one block: the set key reads back if it had at most one line, other keys read as before, and all but at most one line survive in order |
| WorkflowPermissions.RepairedTwice | cmd/go-mk/scaffold.go:1170-1219 | after one repair the last line of every required key is its grant, so a second repair changes nothing |
| WorkflowPermissions.GrantsAreGranted | cmd/go-mk/scaffold.go:1157-1168 | a whole new block of grants needs no repair |
| WorkflowPermissions.RepairedKeepsKids | cmd/go-mk/scaffold.go:1170-1219 | a repaired block is still one block below its key |
| WorkflowLines.EntryIsSet | cmd/go-mk/scaffold.go:1110-1155 | an entry is set in the first line that names it at the indentation of the block, and else behind the last line with content |
| WorkflowLines.EntryIsHeld | cmd/go-mk/scaffold.go:895-945 | a block holds a value for a key if and only if the last line of that key at its indentation has it |
| WorkflowLines.BlockIsGranted | cmd/go-mk/scaffold.go:1170-1219 | in a permissions block the last line of each required key becomes its grant, the grants that no line names come behind the last content in order, and every other line stays |
| WorkflowLines.PermissionsAreAdded | cmd/go-mk/scaffold.go:1157-1168 | a job without permissions gets the block of exactly the required grants right behind its uses line |
| WorkflowLines.PermissionsAreRepaired | cmd/go-mk/scaffold.go:1008-1026 | a permissions block is repaired where it stands, above or below the uses line; another form is left alone |
| WorkflowLines.SecretsAreInherited | cmd/go-mk/scaffold.go:1244-1274 | a job without secrets gets the line that inherits them, behind its uses line and the comments on it; any other is left alone |
| WorkflowLines.WithIsAdded | cmd/go-mk/scaffold.go:947-978 | a job without permissions gets a new with block right behind its uses line |
| WorkflowLines.WithStandsBehindPermissions | cmd/go-mk/scaffold.go:947-978 | it stands behind the permissions block if there is one below the uses line |
| WorkflowLines.InputIsSet | cmd/go-mk/scaffold.go:947-978 | an input is set in the with block where that stands; another form is left alone |
| WorkflowLines.InputsAreRead | cmd/go-mk/scaffold.go:895-932 | the inputs of a job are the entries of its with block; none without one, and unreadable in another form |
| WorkflowIdempotence.UpsertAgrees | cmd/go-mk/scaffold.go:947-978 | setting a with entry leaves every other key of the job and its block alone |
| WorkflowInputs.InputReadsBack | cmd/go-mk/scaffold.go:895-978 | read after write in one job: in an existing block the written input reads back when its key occurs at most once and every other input reads as before; a new block reads as the input and what it picks up of the lines that continue the uses line |
| WorkflowInputs.InputReadsBackIff | cmd/go-mk/scaffold.go:895-978 | read after write and frame hold if and only if a new with block picks up no other input and no other value |
| WorkflowInputs.OtherLinesSurvive | cmd/go-mk/scaffold.go:947-978 | frame: setting an input replaces at most one line, an entry of that key, and every other line of the job stays, in order |
| WorkflowText.EditIsLocal | cmd/go-mk/scaffold.go:1008-1026 | an edit at a uses line changes the lines of its own job and no other |
| WorkflowText.PassIsPerJob | cmd/go-mk/scaffold.go:992-1006 | editing the uses lines from the last to the first is editing every job on its own and concatenating |
| WorkflowFile.EditsKeepShape | cmd/go-mk/scaffold.go:688-694 | each repair leaves a caller job a caller job with the same uses line |
| WorkflowFile.NextJobIsBehind | cmd/go-mk/scaffold.go:1041-1063 | two uses lines with jobs of their own have disjoint jobs, one behind the other |
| WorkflowFile.Sections | cmd/go-mk/scaffold.go:1030-1063 | every file whose uses lines have jobs of their own falls into such jobs with untouched lines between them |
| WorkflowFile.FileRepairIsPerJob | cmd/go-mk/scaffold.go:688-694 | the pipeline over a file repairs each job on its own and leaves every other line alone |
| WorkflowTwice.RepairFileTwiceIff | cmd/go-mk/scaffold.go:688-694 | on a repaired file the three passes change no line, none of their edits changes anything, and a whole second run is the identity: each if and only if every caller job of the original file settles |
| WorkflowTwice.LeavesSettle | cmd/go-mk/scaffold.go:1008-1026 | a file in which no deeper line follows a uses line settles |
| WorkflowSettled.SameFileIsSettled | cmd/go-mk/scaffold.go:992-1006 | a pass returns the file it was given if and only if none of its edits changes anything, so its flag says exactly whether the file changed |
| WorkflowSettled.PassKeepsOwnJobs | cmd/go-mk/scaffold.go:992-1006 | a pass leaves every uses line with a job of its own |
| WorkflowTexts.RepairedTextReadsBack | cmd/go-mk/scaffold.go:688-694 | splitting the repaired text into lines and reading them gives the repaired lines |
| WorkflowTexts.TextRepairTwiceIff | cmd/go-mk/scaffold.go:688-694 | repairing a repaired file changes no byte of any line if and only if every caller job of the original file settles |
| WorkflowLimits.PermissionsTwiceIff | cmd/go-mk/scaffold.go:1008-1026 | exactly when the permissions repair of a job is idempotent: it had the key, or no line that continues the uses line names a required key with another grant |
| WorkflowLimits.SyncTwiceIff | cmd/go-mk/scaffold.go:858-888 | exactly when the cgo sync of a job is idempotent: it had a with block, or the new block with what it picks up still asks for the value that was set |
| WorkflowLimits.RepairTwiceIff | cmd/go-mk/scaffold.go:688-694 | exactly when each of the three repairs leaves a repaired job alone: what continues its uses line neither denies a grant in a new permissions block nor asks for another value in a new with block |
| WorkflowLimits.ContinuedUsesLine | cmd/go-mk/scaffold.go:1157-1168 | a deeper line right below the uses line falls into the new block, and the second run rewrites it |
| WorkflowLimits.PickedUpDirectory | cmd/go-mk/scaffold.go:858-888 | a job whose permissions and secrets need nothing, and whose second run still sets another cgo value |
| Scaffold.LeadingSpaceCount | cmd/go-mk/scaffold.go:1276-1285 | counts exactly the leading spaces |
| Scaffold.JobHeaderIndexAbove | cmd/go-mk/scaffold.go:1041-1051 | the nearest content line above with a smaller indentation, or -1 |
| Scaffold.JobBodyEndIndex | cmd/go-mk/scaffold.go:1053-1063 | the first content line behind that is no deeper than the job, or the end |
| Scaffold.AllUsesLineIndices | cmd/go-mk/scaffold.go:1030-1039 | the matching lines, all and in order |
| Scaffold.FindBlockEntry | cmd/go-mk/scaffold.go:1118-1143 | the line of the key inside the block, or where a new entry goes and how deep it is |
| Scaffold.InsertOrUpdateBlockEntryLines | cmd/go-mk/scaffold.go:1110-1155 | the index loop is the specified upsert of one block, and the flag says whether a line changed |
| Scaffold.InsertMissingPermissionsLines | cmd/go-mk/scaffold.go:1170-1219 | the map and index loops are the specified repair of one permissions block, and the flag says whether a line changed |
| Scaffold.RepairCallerPermissionsAt | cmd/go-mk/scaffold.go:1008-1026 | the index arithmetic on the whole file is the permissions repair of the job |
| Scaffold.EnsureSecretsInheritAt | cmd/go-mk/scaffold.go:1244-1274 | the index arithmetic on the whole file is the secrets repair of the job |
| ScaffoldInputs.UpsertJobWithEntryAt | cmd/go-mk/scaffold.go:947-978 | the index arithmetic on the whole file sets the input of the job, in an old or a new with block |
| ScaffoldInputs.JobWithEntries | cmd/go-mk/scaffold.go:895-932 | the reading loop yields the entries of the with block, or fails exactly when there is no header or no block form |
| ScaffoldInputs.WrittenJobIsFound | cmd/go-mk/scaffold.go:895-978 | behind a write the reader finds the written job around the same uses line, at the number to which it has moved |
| ScaffoldInputs.FileInputReadsBackIff | cmd/go-mk/scaffold.go:895-978 | read after write in any file, at the moved number: exactly when a new with block picks up no other input and no other value |
| ScaffoldInputs.ReleaseCgoByWorkingDirectory | cmd/go-mk/scaffold.go:812-846 | a directory maps to true if and only if it has a readable release job and each of them passes cgo as true, and to false if and only if it has one and each of them passes false or nothing |
| ScaffoldPasses.EarlierCallStays | cmd/go-mk/scaffold.go:1001-1005 | edits from below leave every uses line above at its number |
| ScaffoldPasses.RepairCallerPermissions | cmd/go-mk/scaffold.go:992-1006 | the bottom-up loop repairs every job, and the flag is true if and only if a line changed |
| ScaffoldPasses.EnsureSecretsInherit | cmd/go-mk/scaffold.go:1228-1242 | the same for the secrets pass |
| ScaffoldPasses.SyncCallerCgo | cmd/go-mk/scaffold.go:858-888 | the same for the cgo pass |
| ScaffoldPasses.CgoFollowsRelease | cmd/go-mk/scaffold.go:858-888 | a caller job that agrees with the release jobs of its directory, where a job that names no cgo does without it, is left alone; any other one is given their shared value |
| ScaffoldPasses.SyncFromRelease | cmd/go-mk/scaffold.go:803-888 | over the release and the caller workflow: a caller workflow whose readable jobs all agree with the release is left alone |
| ScaffoldPasses.ReconcileCIWorkflow | cmd/go-mk/scaffold.go:688-694 | the pipeline on an existing caller: all three flags are false exactly when no pass has anything to do |
| ScaffoldPasses.ReconcileTwice | cmd/go-mk/scaffold.go:688-694 | a second run changes no line, and says so in all three flags, if and only if every caller job of the original file settles |
| ProvisionLock.HarmlessIsExclusive | cmd/go-mk/provision.go:518-550 | any number of processes, any interleaving of mkdir, pid write, pid read, probe, rename, removal and exits: at most one live holder as long as no rename hits a directory that a live process has made and not yet removed |
| ProvisionLock.RenameIff | cmd/go-mk/provision.go:538-544 | exactly which renames break that: two processes can come to hold the lock with no further such rename if and only if the maker of the renamed directory is alive and between making and removing it |
| ProvisionLock.HarmfulRename | cmd/go-mk/provision.go:538-544 | from every phase of the maker, steps by which the renaming process and the maker both come to hold the lock |
| ProvisionLock.NoExitIsExclusive | cmd/go-mk/provision.go:566-584 | from a free lock and while no past holder exits the lock is never judged stale, also not in its pid-less windows, and at most one process holds it |
| ProvisionLock.ExitAdmitsTwoHolders | cmd/go-mk/provision.go:538-544 | one orderly release followed by the holder's exit is enough for two holders |
| ProvisionLock.StaleAdmitsTwoHolders | cmd/go-mk/provision.go:538-544 | a lock left by a process that is gone is enough for two holders, with no exit at all: the slower of two judges removes the lock of the faster |
| ProvisionState.TornState | cmd/go-mk/provision.go:401-424 | a state file of which any first part was written names the ref and part of the entity tag, or no tag; a whole one reads back |
| ProvisionState.StateReadsBack | cmd/go-mk/provision.go:401-424 | a whole state file reads back as the ref and the entity tag that were written |
| ProvisionState.ReadsLastETag | cmd/go-mk/provision.go:401-418 | the entity tag that is read is what stands on the last line of its kind |
| ProvisionState.ReadsLastRef | cmd/go-mk/provision.go:401-418 | and so is the ref |
| ProvisionState.TornETagIsNone | cmd/go-mk/provision.go:401-424 | part of an entity tag (RFC 9110 section 8.8.3) is no entity tag |
| Provision.MakeDir.ClearProvisionState | cmd/go-mk/provision.go:426-440 | success leaves neither state nor commit file; every state on the way is honest |
| Provision.MakeDir.InstallProvisionAsset | cmd/go-mk/provision.go:208-246 | the asset changes only as a whole, and only when everything succeeded; when no call fails it succeeds if and only if the target is no directory nor a link to one |
| Provision.MakeDir.InstallProvisionFromStage | cmd/go-mk/provision.go:197-206 | all assets come from the staged tree, and on failure each is the old or the new one; when no call fails it succeeds if and only if no target is a directory |
| Provision.MakeDir.InstallProvisionFromDevDir | cmd/go-mk/provision.go:180-195 | every asset that the directory has is installed, and no state or commit file claims an upstream tree; every other asset stays as it is; when no call fails it succeeds if and only if no target is a directory |
| Provision.MakeDir.RecordProvisionCommit | cmd/go-mk/provision.go:447-460 | a commit file, whole or torn, never names a commit that the assets do not come from; when no call fails it names the commit of the archive |
| Provision.MakeDir.DownloadAndInstallProvision | cmd/go-mk/provision.go:282-331 | success means an unmixed tree; failure leaves honest files and keeps a complete directory complete; when no call fails it succeeds if and only if the staged tree is complete and no target is a directory, and then the state file holds the ref and the entity tag of the archive and the commit file its commit, each only if there is one |
| Provision.MakeDir.ProvisionAssets | cmd/go-mk/provision.go:84-143 | at every step a state or commit file names only the tree the assets come from, so a 304 confirms an unmixed tree; a run confirms if and only if it asks upstream about the stored entity tag and the answer is 304, serves from disk what it has when upstream cannot be reached, and when no call fails ends exactly as the configuration, the archive and the directory decide |
| Provision.MakeDir.ProvisionTwice | cmd/go-mk/provision.go:84-143 | two runs in which no call fails: the second one, outside CI and with the same ref, confirms if and only if the first stored an entity tag and upstream answers 304 to it, and then changes nothing |
| Provision.MakeDir.ProvisionMany | cmd/go-mk/provision.go:84-143 | the same over any number of runs, each finished, failed or stopped at any step |
| Provision.ListChangeIff | cmd/go-mk/provision.go:149-160 | exactly which changes of the asset list keep every directory honest: those that add no asset; for any other some complete directory confirms a mixed tree |
| Notice.IdentityHasKey | cmd/go-mk/notice_history.go:17-22 | findings with one identity have one baseline key |
| Notice.IdentityIff | cmd/go-mk/notice_history.go:17-22 | two findings share an identity if and only if they share the baseline key and, unless the rule is about whole files, the digest |
| Notice.Reject | cmd/go-mk/notice_history.go:65-77 | the counting loop rejects exactly the keys of findings beyond their historical count |
| Notice.RestrictNoticeFindings | cmd/go-mk/notice_history.go:61-84 | keeps a finding exactly when every identity of its baseline key occurs at most as often as before; fails exactly when a finding has no identity |
| Notice.KeptMatchesHistory | cmd/go-mk/notice_history.go:61-84 | the kept identities are matched one for one by historical ones |
| Notice.OrderDoesNotMatter | cmd/go-mk/notice_history.go:61-84 | which findings are kept does not depend on their order |
| Fingerprint.DecodeEncode | cmd/go-mk/reuse.go:303-305 | every list of records reads back from its byte stream, although values may contain newlines |
| Fingerprint.UniquelyDecodable | cmd/go-mk/reuse.go:303-305 | two lists of records with one stream are one list |
| Fingerprint.NulInValueIsAmbiguous | cmd/go-mk/reuse.go:303-305 | without the bar on NUL in values two lists share a stream |
| Reuse.HashFingerprintFiles | cmd/go-mk/reuse.go:287-299 | folds path and digest of every file, and fails exactly when one cannot be read |
| Reuse.ReuseFingerprint | cmd/go-mk/reuse.go:254-282 | the running hash is the hash of all labelled inputs |
| Reuse.SameFingerprintSameParts | cmd/go-mk/reuse.go:254-305 | equal fingerprints force equal engine, settings, binary specs, paths and digests |
| Reuse.SpecSplits | cmd/go-mk/reuse.go:272 | equal spec lines force equal binaries as long as name and package contain no bar |
| Reuse.BarsAreAmbiguous | cmd/go-mk/reuse.go:272 | with a bar in a name two binaries share a line |
| Reuse.SpecsSplit | cmd/go-mk/reuse.go:272 | two lists of binaries with the same spec lines are one list, when names and packages hold no bar |
| Reuse.OutputsAre | cmd/go-mk/reuse.go:108-119 | the outputs are each binary in the dist directory and, for an install, also in its target directory, in number as well |
| Reuse.SatisfiedIsSameTree | cmd/go-mk/reuse.go:125-173 | sound: an accepted stamp means every input, every binary in the dist directory and, for an install, every installed one is the recorded one |
| Reuse.SameTreeIsSatisfied | cmd/go-mk/reuse.go:125-173 | complete: on the recorded tree the stamp is accepted if and only if there are as many output paths as outputs |
| Reuse.StampFile.WriteReuseStamp | cmd/go-mk/reuse.go:225-248 | merges one mode's stamp and leaves the others, or leaves the file, or spoils it |
| Reuse.StampFile.RecordReuse | cmd/go-mk/reuse.go:178-204 | stamps the run's inputs and outputs, or nothing when one cannot be read; other modes keep their stamps |
| Reuse.StampFile.OutputsUnchanged | cmd/go-mk/reuse.go:147-173 | exactly the comparison of counts and digests |
| Reuse.StampFile.ReuseSatisfied | cmd/go-mk/reuse.go:125-143 | true exactly when the mode's stamp describes the tree |
| Reuse.StampFile.ReusedIsRecorded | cmd/go-mk/reuse.go:125-173 | whenever a run is reused its inputs, the binaries in the dist directory and the installed ones are there with the content last recorded; and it is for the same binaries when no name or package holds a bar |
| Reuse.StampFile.RecordedIsReused | cmd/go-mk/reuse.go:125-248 | after a recorded run, whatever other modes record, an unchanged tree is reused if and only if no output path repeats |
| Taint.TaintLoop | staticcheck/testsourcefile.go:94-124 | the loop ends and yields the least set closed under the assignments, which is what chains of assignments from the read reach |
| Taint.OrderDoesNotMatter | staticcheck/testsourcefile.go:94-124 | the visiting order of the assignments does not matter |
| Taint.TaintedIff | staticcheck/testsourcefile.go:94-124 | tainted are exactly the identifiers, other than those for errors, on the left of an assignment with the read or something tainted on its right |
| Taint.ReadIsProductionInput | staticcheck/testsourcefile.go:76-142 | true exactly when some receiving call has an argument that the read reaches |
| ParentMap.RunTree | staticcheck/structural.go:270-287 | walking a tree leaves the stack as it was and adds the parents of its nodes |
| ParentMap.BuildParentMap | staticcheck/structural.go:270-287 | ends with an empty stack and a map of exactly the true parent of every node but the root |
| ParentMap.ParentIsAbove | staticcheck/rta_slog_field_bypass.go:461-479 | a parent lies one level above its child |
| ParentMap.IsInsideTrackedSlogCallArgs | staticcheck/rta_slog_field_bypass.go:461-479 | the upward walk ends, and answers whether the nearest call above is tracked and has the node in its arguments |
| Submodules.LongestSubmodulePrefix | cmd/go-mk/preparesubmodules.go:67-78 | a listed path above the target, and no listed one is longer |
| Submodules.LongestIsUnique | cmd/go-mk/preparesubmodules.go:67-78 | there is only one such path, in whatever order they are listed |
| Submodules.DescendsInto | cmd/go-mk/preparesubmodules.go:45-62 | a path inside a submodule descends into it and goes on there with the rest of the path, so a submodule in a submodule comes right behind its parent |
| Submodules.DescendsNowhere | cmd/go-mk/preparesubmodules.go:67-78 | a path that lies in no listed directory descends no further |
| Submodules.LibIsNotLibs | cmd/go-mk/preparesubmodules.go:67-78 | a directory with a longer name is not inside the submodule |
| Submodules.Descend | cmd/go-mk/preparesubmodules.go:45-62 | one output: initializes exactly its descent, and ends because the rest of the path gets shorter |
| Submodules.PrepareSubmodulesForOutputs | cmd/go-mk/preparesubmodules.go:29-65 | initializes exactly the submodules some output descends through, each once and after its parent, lists only directories that are there, and succeeds if and only if no listing and no initialization fails |
| MakeContract.LongOptionSelected | cmd/go-mk/makecontract.go:248-264 | a long name selects the option of that name, or the only one it abbreviates |
| MakeContract.ContractLongOption | cmd/go-mk/makecontract.go:248-264 | the loop over the table makes that selection |
| MakeContract.ContractOption | cmd/go-mk/makecontract.go:221-246 | a cluster is decided by its first letter that takes the rest of the argument, with everything before it retained, and is plain when a letter that ends the options or no such letter comes first; a long option by the one table entry that its name selects; all else is plain |
| MakeContract.OptionsAreSound | cmd/go-mk/makecontract.go:221-246 | what is left of a cluster without its directory takes no value, and a directory option names no makefile |
| MakeContract.MakeContractArguments | cmd/go-mk/makecontract.go:179-211 | the index loop keeps the specified groups, and fails exactly on a missing value or a standard-input makefile |
| MakeContract.ReplayKeepsGroups | cmd/go-mk/makecontract.go:179-211 | the replay reads as the same arguments without directories: every other one keeps its value behind it, in order |
| MakeContract.ReplayTwice | cmd/go-mk/makecontract.go:179-211 | replaying the replay changes nothing, nor whether a makefile is named |
| MakeReplay.DirectoriesGo | cmd/go-mk/makecontract.go:179-246 | `-C` and `--directory`, with the directory in the next word or in the same one, leave no trace in the replay |
| MakeReplay.AbbreviatedDirectoriesGo | cmd/go-mk/makecontract.go:248-264 | so do the abbreviations of `--directory` that are no other option's |
| MakeReplay.FlagsStay | cmd/go-mk/makecontract.go:221-246 | flags stay, also those in front of a directory in one argument |
| MakeReplay.MakefilesStay | cmd/go-mk/makecontract.go:179-211 | a makefile in the next word stays and is noticed; the standard input is refused |
| MakeReplay.InlineMakefilesStay | cmd/go-mk/makecontract.go:179-211 | so does a makefile in the same word |
| MakeReplay.ValuesStay | cmd/go-mk/makecontract.go:221-246 | every other option that needs a value keeps the next word with it, whatever that looks like |
| MakeReplay.OptionalValuesStay | cmd/go-mk/makecontract.go:221-246 | an option whose value is optional never takes the next word |
| MakeReplay.TargetsStay | cmd/go-mk/makecontract.go:179-211 | targets and variables stay, and everything behind a double dash, unread |
| MakeReplay.LetterNeedsValue | cmd/go-mk/makecontract.go:179-211 | a letter that needs a value is refused at the end |
| MakeReplay.NameNeedsValue | cmd/go-mk/makecontract.go:179-211 | so is a long option that needs one |
| Lines.SplitConcat | cmd/go-mk/cachemanifest.go:730-739 | the lines of two texts joined by a newline are the lines of both |
| GitHubOutput.WrittenParsesBack | cmd/go-mk/cachemanifest.go:697-709 | the output file parses back to exactly the values, for every delimiter that is no line of a value |
| GitHubOutput.ValuesContainDelimiter | cmd/go-mk/cachemanifest.go:730-739 | true exactly when some value has the delimiter as a line |
| GitHubOutput.DelimiterFor | cmd/go-mk/cachemanifest.go:718-728 | a delimiter that ends no value, the fixed one whenever it is free, and none exactly when every candidate is taken |
| GitHubOutput.WriteGitHubOutputs | cmd/go-mk/cachemanifest.go:673-710 | what is appended parses back to the nine fields of the result, each under its own output name |

## Left out

- InstallRuns.RunMany: assumes reliable removals and a clean marker write; `InstallLimits.StuckReservation`, `InstallLimits.StuckBackup` and `InstallLimits.FailedMarkerWrite` are the exact conditions for one install without them.
- InstallRuns.InstallRelease: says nothing about a release that replaces a file by a link to another name of it, for which `InstallLimits.MaskedSymlink` is the exact condition, nor about links that lead to one file through the set itself.
- Recovery.RecoverMany: behind the marker it assumes that temporary files can be removed; `Recovery.Recover` says what one recovery leaves when they cannot.
- Recovery.Recover: takes the set of paths as given; options with a blank install path, which the code skips, and sets with a dry run, for which it does not recover, are not in the set.
- ScaffoldPasses.ReconcileCIWorkflow: says nothing about a file in which one uses line lies in the job of another, because an insertion may then move the other's number.
- ScaffoldPasses.RepairCallerPermissions: promises its result and its flag for the same files only.
- ScaffoldPasses.EnsureSecretsInherit: promises its result and its flag for the same files only.
- ScaffoldPasses.SyncCallerCgo: promises its result and its flag for the same files only.
- ProvisionLock.HarmlessIsExclusive: a pid is never given to a second process, a pid is written in one step that replaces what the file holds, and the liveness probe is right; a probe refused for lack of permission counts as a dead holder in the code.
- Provision.MakeDir.ProvisionAssets: the asset list is fixed, upstream serves well-formed entity tags (RFC 9110 section 8.8.3), and temporary names never collide with asset names.
- Reuse.OutputsOf: does not sort the paths, because only their set and number are compared.
- Reuse.StampFile.ReuseSatisfied: the opt-in variable is taken as set; the stamp file's JSON is taken to read back as written or not at all.
- GitHubOutput.DelimiterFor: draws from a finite list of suffixes, because the search ends only with probability one.
- Submodules.PrepareSubmodulesForOutputs: path.Clean, path.Join and the listing of a directory are functions of the environment; the text of .gitmodules is not parsed.
- MakeContract.MakeContractArguments: strings are sequences of characters where Go indexes bytes; the two agree on the option letters.
- Joining and splitting file contents, the choice between the two line endings, and real YAML: a file is its lines.
- File modes, directories, retries of temporary names, and errors of filepath.Glob.
- Network, checksums, attestations, archives, code signatures and launching candidates: their results are parameters.
- How findings are located in source and digested: baseline keys and digests are functions of the finding.
- Go syntax and types: assignments, calls and trees are given with the objects and children they mention.
- The other reconcilers of the scaffold command, the release caller's binary input, cobra wiring, logging, the display, service units, and the remaining analyzers.
