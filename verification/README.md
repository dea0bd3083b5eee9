# MultiLanes: crash recovery and kernel protocols, verified

MultiLanes runs many isolated storage lanes on one machine. SFS (`sfs16/`) is a stackable file system that
spreads one name space over several partitions; the `linux-3.8.2-multilanes-patch/` tree partitions the VFS
of the kernel below it. This project models the parts of both that are hardest to get right and proves what
they keep, for all inputs and over all runs.

**SFS rename and recovery.** A file is one data file, or a *meta* file in a normal directory of one partition
and a *data* file in a shadow directory of another. The two carry a four-slot link record (pointer, rename,
hidden, stale). A cross-partition rename is a short sequence of durable steps; looking a name up repairs what
a crash left behind.

- `SfsView` is the disk as seen by one name: its entries, and what recovery does with them.
- `SfsRename` gives the steps of every rename branch, including what it does when any of its calls fails.
- `SfsCall` is one call of rename, on what the dentries of the two names hold. A dentry keeps the partitions
  of its file between calls, and after a call that failed they need not be what is on disk: the dentry may
  have *doubled* ids, one partition for both the data and the meta file; its entry may be gone; or there may
  be an entry that a dentry without an inode does not know of.
- `SfsRecovery`, `SfsDescent`, `SfsCrash` and `SfsTheorems` prove what lookups find after a crash at any step,
  with any set of failing calls, followed by any recovery passes that may themselves be cut short at any
  operation. The names may have left-overs: entries in shadow directories that belong to no file.
- `SfsComplete` proves that a rename that is not interrupted does what it should.
- `SfsLeftOver` says when a crash leaves an entry over, and what the next crash can do with it.
- `SfsDentry` is what validation makes of the ids a dentry holds, and where wrong ones come from.
- `SfsRuns` puts names, directories and cached dentries together: any sequence of lookups, creates, deletes
  and renames, each failing or crashing anywhere, from an empty file system. `SfsCleanRuns` are the runs in
  which no operation fails half-way, `SfsLosses` are runs that lose a file.
- `SfsActions` is the same code in its own form: objects whose fields and entries change in place. They keep
  a history of the states of the disk, which is proved to hold exactly the states the theorems are about.
- `SfsRecordText` is the text encoding of link records; `SfsPlacement` is the set of normal directories and
  the round-robin choice of partitions.

**Kernel protocols.** `AioTeardown`, `AioRing`, `AioKick` and `AioIovec` are asynchronous I/O contexts, their
completion ring, retries and vectored transfers. `BlockWrite`, `PageCompletion` and `BufferLru` are buffered
block writes, page I/O completion and the per-CPU buffer caches. `BlockDevice` and `BlockClaims` are claiming
and opening disks and partitions. `DcacheMove` and `DcacheUmount` are the dentry hash tables under moves and
the tear-down of a dentry tree. `Lists` has what these need of lists without repetitions. Protocols between threads are state
machines whose actions are sections under one lock or single atomic operations; runs are arbitrary
interleavings of actions.

Check the whole project with `dafny verify dfyconfig.toml`.

## Where the code does not keep what one would expect

Each of these is a theorem: the exact condition under which the property holds, and a state or a run that
shows it failing otherwise.

- **Source of a rename.** `SourceNeverLostIff` gives the exact condition under which it is never lost and
  never under both names: the call does not *expose*, *sever* or *cover* it.
  - Exposed: the source is a plain file, and the partition its mark names has a left-over of its name, which
    for the stale mark of a hiding rename also points back at the source. `LeavesSomeIff` says when a crash
    leaves a left-over at all: when the destination is partitioned with its data in another partition than
    the source's. `SecondCrashLosesFile` puts the two together, and `TwoCrashesLoseFile` is a run from an
    empty file system that gets there.
  - Severed: validation never takes back the meta partition that a dentry holds. `DoubledIff` says that it
    leaves doubled ids exactly when the dentry holds one and the record there has lost its link, and
    `FailureUnlinksIff` after which failing calls of a rename that is so. With such a destination a rename
    that cannot make its data visible deletes the visible entry of the new name, and with such a source one
    to a free name, or within one directory, deletes the data it has just moved. `RepeatedRenameSeversFile`
    is a run in which a rename fails half-way, is repeated, succeeds, and the file is gone.
  - Covered: a rename to a free name that fails may leave its meta file behind (`FailureShadowsIff`), while
    the dentry goes on saying that the name is free. If the rename is repeated and gives the new name a
    second visible entry, lookups on disk find the first one: `RepeatedRenameCoversFile` is such a run.
  - For a rename in which nothing fails and no crash comes, `RenameLosesIff` says exactly when the file is
    afterwards under no name at all.
- **Destination of a rename.** It is not crash atomic in general. `DestinationAtomicIff` gives the exact
  condition: a free name must not need a new meta file (else it shows up as an empty file), a partitioned
  destination must be replaced in the partition whose record the rename does not overwrite (its meta
  partition when the data can become visible, its data partition otherwise), and a plain one that becomes a
  meta file must not be linked to a left-over.
- **Batch refill of an I/O context.** The free space of the ring is an unsigned 32-bit difference stored in a
  64-bit signed variable, so the check for a negative value cannot fire, and a refill may hand out slots that
  do not exist. `RefillFitsIff` gives the condition; `UnguardedRefillLosesEvents` reaches the loss in a ring of
  any size.
- **First open of a partition.** While it is in progress the partition seems to contain itself, and a claim on
  it is admitted although somebody holds the whole disk. `ClaimUnsafeIff` says that this window is exactly
  when the kernel can run into the check at the end of a claim; `WindowIsReachable` gives a run into it.
- **Dropping a disconnected dentry.** The lock taken is chosen by the disconnected flag, the list by whether
  the dentry has a parent. `DropLocksItsListIff` says that they differ exactly for a disconnected dentry that
  was given a parent; `SpliceAndDrop` is a run into that case.
- **First normal partition.** A stray semicolon after the test in `check_normal_dir` makes every marked
  partition the first one in its turn, so the last one visited wins. At the root that is the highest one. For
  other directories the scan starts over after its first find; `LastIsLowestIff` says when the result is
  nevertheless the lowest marked partition, and `RestartDecides` shows, for any two or more marks, that it
  depends on the first find.

## Model

| member | source | states |
|---|---|---|
| SfsTheorems.SourceNeverLostIff | sfs16/rename.c:210-648 | For every set of failing calls, a crash after any step and any recovery passes, cut short or not, exactly one of the two names resolves to the source's data file, if and only if the call does not expose, sever or cover it, whatever the two dentries hold. |
| SfsTheorems.SourceOutcome | sfs16/rename.c:210-648 | Unless the call severs or covers the file, it is under the new name alone once the data has moved, and until then under the old name or, if exposed, where the mark leads. |
| SfsTheorems.SeveredIsLost | sfs16/rename.c:347-642 | A call that takes the data for the meta file, or the visible entry for the data, runs to its end without a failing call and loses the file under both names. |
| SfsTheorems.CoveredIsLost | sfs16/rename.c:285-345 | A call that gives a name a second visible entry behind one its dentry does not know of runs to its end and loses the file under both names. |
| SfsTheorems.ExposedIsLost | sfs16/rename.c:312-319 | A crash right after the mark loses an exposed source under both names. |
| SfsTheorems.CrashOutcome | sfs16/rename.c:210-648 | Before the rename step the source keeps its file unless it is exposed, and the new name has its old file or one of the stated detours; afterwards the old name is gone and the new one has the file. Unless the call severs the file or crowds the new name. |
| SfsTheorems.DestinationAtomicIff | sfs16/rename.c:366-648 | Unless the call severs the file or crowds the new name, the latter resolves to its old file or the source's at every crash point, if and only if the destination is kept by the branch taken. |
| SfsTheorems.DetourVisible | sfs16/rename.c:285-581 | In every branch that does not keep the destination, a crash inside the window shows the wrong file: the meta file alone, the visible half of a partitioned destination, or a left-over. |
| SfsTheorems.CrashConverges | sfs16/namei.c:239-471 | From every state a crashed rename and any cut-short passes can leave, two passes reach a disk that further passes leave alone, every pass resolves the name to the same file or to nothing, and its data and meta file then point at each other. |
| SfsTheorems.ValidatedIsFile | sfs16/namei.c:474-615 | One complete pass makes a well-formed file of every name a crash can leave, or clears it away, and a dentry that is looked up anew has its ids. |
| SfsTheorems.CrashLeavesFiles | sfs16/rename.c:655-665 | After any crash and any passes, the next lookup makes a well-formed file of both names. |
| SfsTheorems.RenameSafe | sfs16/rename.c:650-674 | Every state between two steps of a rename that does not sever or cover the file stands for either the old or the new situation, whatever the two dentries hold. |
| SfsTheorems.CutKeepsMeaning | sfs16/namei.c:239-455 | A recovery pass stopped after any number of its operations leaves entries that stand for the same file. |
| SfsTheorems.PassesKeepSafe | sfs16/namei.c:474-615 | The same for any sequence of such passes over the two names. |
| SfsRecovery.LookupResolves | sfs16/namei.c:498-593 | Looking a name up resolves it to exactly the file its entries stand for, and so does every state inside the pass. |
| SfsRecovery.LoneRecovery | sfs16/namei.c:252-449 | What recovery leaves of a single visible entry and everything else under the name, in each of its conditions: a meta file whose data is gone goes, a rename that arrived becomes a pointer, any other link is dropped, and data that its meta file points to points back. |
| SfsRecovery.StaleRecovery | sfs16/namei.c:255-295 | A stale link: exactly the stale entry and what it points at go and the record is reset, and the name keeps its file unless that is what it points at. |
| SfsRecovery.PairRecovery | sfs16/namei.c:255-335 | While both a hidden entry and its replacement are visible, both scan orders delete the hidden one, reset the new one and resolve to it. |
| SfsRecovery.RecoveryConverges | sfs16/namei.c:239-471 | Two passes settle every name whose entries stand for something, with the same answer each time; the data and the meta file of a partitioned file then point at each other. |
| SfsRecovery.SettledPointsBack | sfs16/namei.c:407-445 | Wherever a pass has nothing to do, the data of a partitioned file points back at its meta file. |
| SfsCrash.TurnSafe | sfs16/rename.c:251-283 | Every crash point of a rename to a free name whose data becomes visible, failures included, is safe. |
| SfsCrash.SplitSafe | sfs16/rename.c:285-345 | The same for a rename to a free name that needs a meta file. |
| SfsCrash.OverwriteSafe | sfs16/rename.c:430-547 | The same for a source that replaces an entry of the destination, including the way back after a failed rename. |
| SfsCrash.HideSafe | sfs16/rename.c:444-530 | The same for a destination that is hidden first and deleted later, including the way back. |
| SfsCrash.RedirectSafe | sfs16/rename.c:552-634 | The same for a destination whose visible entry becomes the meta file. |
| SfsComplete.RenameCompletes | sfs16/rename.c:210-648 | Without interruption, and with the ids of the files in both dentries, nothing but left-overs is left under the old name, the new one has the source's file, well formed, and no other left-over changes. |
| SfsComplete.RenameArrives | sfs16/rename.c:210-648 | Whatever the dentries hold, such a rename moves the file to the new name unless it severs, covers or exposes it, or fails because the destination is gone or its meta file is there already, and then the old name keeps it. |
| SfsComplete.SplitCompletes | sfs16/rename.c:285-358 | The same for the branch that creates a meta file: the two entries point at each other. |
| SfsComplete.HideCompletes | sfs16/rename.c:444-530 | The same for the hiding branch: nothing of the old destination's file is left. |
| SfsLeftOver.LeavesSomeIff | sfs16/rename.c:366-648 | From names without left-overs some crash leaves one, after recovery, if and only if the destination is partitioned with its data in another partition than the source's. |
| SfsLeftOver.SourceLeavesNone | sfs16/rename.c:210-648 | No crash leaves anything over under the old name. |
| SfsLeftOver.ScatteredIsLeft | sfs16/rename.c:430-581 | In each branch onto such a destination, the crash point at which recovery takes the visible entry for a plain file and leaves the data behind. |
| SfsDescent.AfterDescends | sfs16/rename.c:210-648 | Every entry after a crash and recovery is an old one with its file, the moved data, or the new meta file. |
| SfsDescent.NotUnderBoth | sfs16/rename.c:210-648 | Until it is moved no lookup finds the source's data under the new name, and afterwards none finds it under the old one, whatever the dentries hold. |
| SfsLeftOver.SecondCrashLosesFile | sfs16/namei.c:255-404 | A crash in a rename, recovery, and a crash in the next rename of the same file, to a free name or onto a file in the left-over's partition, lose the file. |
| SfsDentry.DoubledIff | sfs16/namei.c:461-471 | Validation leaves one partition for both the data and the meta file if and only if the dentry holds a meta partition whose record has lost its link. |
| SfsDentry.CheckIsLookup | sfs16/namei.c:461-471 | Validation at the ids a dentry holds does what a lookup on disk would do. |
| SfsDentry.CheckedKnown | sfs16/namei.c:461-471 | The ids are then those of the file a lookup finds, or doubled ones of a plain file, or their entry is gone. |
| SfsDentry.FailureUnlinksIff | sfs16/rename.c:444-581 | A failed rename onto a partitioned file leaves its meta file without a link if and only if it had hidden it, or had linked it to a partition without an entry, before the call that failed. |
| SfsDentry.FailureShadowsIff | sfs16/rename.c:285-319 | A failed rename to a free name leaves a visible entry behind if and only if it had created its meta file. |
| SfsRuns.EveryNameRecovers | sfs16/namei.c:474-615 | In every state of every run of coherent actions, whatever failed or crashed: one pass makes a well-formed file of a name or clears it away, a meta file or left-over means a full normal set, and no two names resolve to the same file. |
| SfsRuns.DoubledInRunIff | sfs16/namei.c:461-471 | In every such state, a dentry is validated to the file a lookup finds, with doubled ids if and only if it holds a meta partition whose record has lost its link. |
| SfsRuns.FileSurvives | sfs16/rename.c:650-674 | Over any run of coherent actions, with dentries that outlive calls and crashes that empty the cache, a file that no action deletes, replaces or exposes stays, under exactly one name. |
| SfsRuns.MadeFoundIff | sfs16/namei.c:987-1066 | A file created under a name that has an entry its dentry does not know of is found again if and only if the entries before it lead to it. |
| SfsLosses.RenameLosesIff | sfs16/rename.c:650-674 | In every such state, a rename in which no call fails that could succeed leaves the file under no name at all if and only if it severs or covers it, or stops with an exposed source. |
| SfsLosses.RepeatedRenameSeversFile | sfs16/rename.c:552-621 | From an empty file system: a rename onto a partitioned file fails half-way, is repeated, succeeds, and the file is under no name. |
| SfsLosses.RepeatedRenameCoversFile | sfs16/rename.c:285-345 | From an empty file system: a rename to a free name fails half-way, is repeated, succeeds, and the file is under no name. |
| SfsLosses.TwoCrashesLoseFile | sfs16/rename.c:430-547 | From an empty file system, with dentries that are right throughout: two crashes in two renames lose a file. |
| SfsCleanRuns.CompletedRunIsClean | sfs16/rename.c:650-674 | Over any run of completed operations every name has exactly the entries of a well-formed file, every cached dentry has its ids, and every action is coherent. |
| SfsCleanRuns.RenameMovesFile | sfs16/rename.c:650-674 | A completed rename gives the file to the new name and takes it from the old one. |
| SfsRuns.OthersKeepFiles | sfs16/rename.c:650-674 | A rename, finished or not, changes no other name, although its directory may get another normal partition. |
| SfsRuns.StepKeepsInv | sfs16/namei.c:474-615 | Every coherent action keeps all names standing for something, entries in place, file ids distinct, and every cached dentry about the visible entry of its name, or about one that is gone or that it does not know of. |
| SfsRuns.CallReady | sfs16/rename.c:655-665 | Validation at the cached ids and marking provide what the crash theorems assume, in every state of a run. |
| SfsRuns.NameValidated | sfs16/namei.c:461-471 | Validation at the cached ids is a pass over the name, and leaves the ids of the file found, or doubled ones. |
| SfsRuns.MarkingKeepsName | sfs16/namei.c:135-146 | A normal set that grows only while it is not full leaves every name, and what its dentry is about, what it was. |
| SfsRuns.DeleteAtomic | sfs16/namei.c:1268-1342 | Deleting is crash atomic: the name has its file until the data goes, and then nothing. |
| SfsRuns.MakeKeepsInv | sfs16/namei.c:987-1066 | Creating a file under a name that is free on disk gives the name that file and keeps all others. |
| SfsRuns.ShownIsSafe | sfs16/rename.c:650-674 | In every state inside a rename, validation included, exactly one name has the file unless the call exposes, severs or covers it. |
| SfsActions.Dentry.ClearRename | sfs16/kv.c:33-53 | Read, change one slot, write back: exactly that slot differs; a failing call changes nothing. |
| SfsActions.Dentry.CleanStale | sfs16/namei.c:255-295 | Takes exactly the planned operations, in order, up to the call that fails. |
| SfsActions.Dentry.CleanHidden | sfs16/namei.c:298-335 | The same for deleting a hidden file and resetting its replacement. |
| SfsActions.Dentry.FinishRename | sfs16/namei.c:365-397 | The same for turning a rename link into a pointer link. |
| SfsActions.Dentry.CheckPointer | sfs16/namei.c:407-445 | The same for following a pointer link, and the ids the dentry ends up with. |
| SfsActions.Dentry.CheckRename | sfs16/namei.c:349-404 | The same for a rename link. |
| SfsActions.Dentry.DropRename | sfs16/namei.c:398-404 | The same for a rename link whose target is missing, which is dropped before condition 3. |
| SfsActions.Dentry.UnhideLocal | sfs16/namei.c:336-347 | The same for a hidden link whose target is missing. |
| SfsActions.Dentry.Validate | sfs16/namei.c:239-455 | A pass whose n-th call fails stops there with an error; otherwise it takes the planned operations and sets the planned ids. |
| SfsActions.Dentry.ValidateFile | sfs16/namei.c:461-471 | A cached dentry is validated at its meta partition, or at its data if it has none; the ids that validation does not set stay. |
| SfsActions.Dentry.UnlinkFile | sfs16/namei.c:1268-1337 | Validates the name and deletes its data and its meta file, as one step of the file system: entries and dentry end up as the step says, whichever call fails. |
| SfsActions.Dentry.LookupFile | sfs16/namei.c:474-615 | The upward scan over normal directories and the validation of the first entry found are one recovery pass, and every state on the way stands for the same file. |
| SfsActions.Renaming.Turn | sfs16/rename.c:251-283 | The disk goes through exactly the states of the branch's steps, in order; an error is reported if and only if the source was not moved. |
| SfsActions.Renaming.Split | sfs16/rename.c:285-345 | The same, with the new meta partition recorded on success. |
| SfsActions.Renaming.Overwrite | sfs16/rename.c:430-440 | The same for condition 1.1. |
| SfsActions.Renaming.Hide | sfs16/rename.c:444-491 | The same for condition 1.2. |
| SfsActions.Renaming.Redirect | sfs16/rename.c:552-632 | The same for condition 2. |
| SfsActions.Renaming.Rename | sfs16/rename.c:210-648 | Marks the data's partition normal for the new parent when possible; the disk then goes through exactly the states of the branch that fits. |
| SfsActions.Renaming.CheckOld | sfs16/rename.c:655-658 | The validation of the old name, from the ids its dentry holds, exposes only states of a pass over it, up to the call that fails. |
| SfsActions.Renaming.CheckNew | sfs16/rename.c:660-665 | The same for the new name, if its dentry has an inode. |
| SfsActions.Renaming.RenameOther | sfs16/rename.c:650-674 | Validates both names and renames, as one step of the file system: entries, normal set and both dentries end up as the step says, and every state of the disk on the way is one of the validations or one between two steps. |
| SfsActions.Renaming.RenameFile | sfs16/rename.c:677-688 | In every state of the disk on the way exactly one of the two names resolves to the file, unless the call exposes, severs or covers it. |
| SfsActions.TraceIsRunTo | sfs16/rename.c:210-648 | The states a branch goes through are exactly those a crash can expose. |
| SfsRecordText.RecordRoundTrip | sfs16/kv.c:55-81 | Every record reads back as written, whatever follows its terminator in the buffer. |
| SfsRecordText.DecodedIsWritten | sfs16/kv.c:69-81 | A record is read back only from four numbers with colons between them, and has these in its slots. |
| SfsRecordText.RecordFits | sfs16/kv.c:55-67 | With at most 64 partitions a record and its terminator fit the fifteen-byte buffer. |
| SfsPlacement.BitmapIsSet | sfs16/sfs_fs.h:259-272 | Setting a bit of the map adds that partition and no other. |
| SfsPlacement.Dispatcher.Dispatch | sfs16/dispatch.c:19-31 | The partition is in range and the counter starts over past 1024. |
| SfsPlacement.Directory.SetNormal | sfs16/namei.c:102-133 | The set grows by the partition unless the call fails; count, bound and first member stay right. |
| SfsPlacement.Directory.CanTurn | sfs16/namei.c:135-146 | True exactly for members and while the set is below min(20, partitions). |
| SfsPlacement.Directory.Select | sfs16/dispatch.c:35-50 | The first normal partition at or after the counter, which moves just past it. |
| SfsPlacement.Directory.LocalDispatch | sfs16/dispatch.c:52-94 | Ends despite the counter reset, with a new partition exactly while the set may grow. |
| SfsPlacement.Directory.SelectRound | sfs16/dispatch.c:35-50 | As many selections in a row as there are normal partitions pick each exactly once. |
| SfsPlacement.Directory.Perform | sfs16/namei.c:756-784 | Any sequence of creates, mkdirs, links and renames keeps count = cardinality <= min(20, partitions) and the first id a member; a full set never changes. |
| SfsPlacement.Directory.CheckNormal | sfs16/namei.c:75-100 | Every marked partition joins the set and becomes the first one. |
| SfsPlacement.Directory.LoadRoot | sfs16/super.c:285-289 | The root's set is read back, with its highest member as the one for new directories. |
| SfsPlacement.Directory.LookupDir | sfs16/namei.c:498-593 | The scan with its restart ends, reads the set back, and makes the marked partition visited last the first one: the highest besides the one found first. |
| SfsPlacement.LastIsLowestIff | sfs16/namei.c:75-100 | That is the lowest marked partition if and only if at most one other than the first find is marked, and none above the first find when that is marked. |
| SfsPlacement.RestartDecides | sfs16/namei.c:582-587 | For every set of two or more marks, two lookups of the same directory that find it first in different partitions make different ones the first. |
| AioTeardown.LastPutFindsNoRequest | linux-3.8.2-multilanes-patch/fs/aio.c:201-230 | In every interleaving, each action finds the context and its requests still referenced, and the put that drops the last reference finds no active request. |
| AioTeardown.AlwaysCanFree | linux-3.8.2-multilanes-patch/fs/aio.c:305-397 | From every state of every run some sequence of actions drops the last reference to the context and leaves no request, whoever waits or still holds it. |
| AioTeardown.RequestIsTold | linux-3.8.2-multilanes-patch/fs/aio.c:551-570 | In every run a request is there exactly as long as the actions since its allocation leave references to it, with exactly these, at the stage to which it was taken. |
| AioTeardown.ThreadKeepsContext | linux-3.8.2-multilanes-patch/fs/aio.c:587-612 | In every run a thread that has looked the context up has it, referenced, until it puts it. |
| AioTeardown.NothingStartsAfterwards | linux-3.8.2-multilanes-patch/fs/aio.c:1192-1216 | In every run no request is started once a thread has begun to destroy the context or the process exits. |
| AioTeardown.StepKeepsInv | linux-3.8.2-multilanes-patch/fs/aio.c:305-344 | Every action keeps references exactly accounted for, and somebody waiting while a started request is left on a dead context. |
| AioTeardown.DestroyKeepsInv | linux-3.8.2-multilanes-patch/fs/aio.c:1192-1216 | The same for marking a context dead: only the thread that found it alive will drop the list's reference. |
| AioTeardown.EndKeepsInv | linux-3.8.2-multilanes-patch/fs/aio.c:369-397 | The same for the end of a kill and for process exit. |
| AioTeardown.SubmitStepKeepsInv | linux-3.8.2-multilanes-patch/fs/aio.c:448-529 | The same for filling and emptying a batch and starting a request. |
| AioTeardown.PutKeepsInv | linux-3.8.2-multilanes-patch/fs/aio.c:551-570 | The same for dropping a reference to a request, which frees it with the last one. |
| AioRing.RefillFitsIff | linux-3.8.2-multilanes-patch/fs/aio.c:471-516 | A refill hands out no more slots than there are if and only if active requests are within the free space or the batch fits anyway. |
| AioRing.RefillGrants | linux-3.8.2-multilanes-patch/fs/aio.c:487-516 | A refill hands out all that is wanted as far as the ring's free space exceeds the active requests, and all of it when the requests exceed the free space. |
| AioRing.AlwaysCanDrain | linux-3.8.2-multilanes-patch/fs/aio.c:892-1034 | After every run whose refills meet the guard, every event posted, and one of every request that holds a slot, can be read, in order, leaving no request. |
| AioRing.ActiveCounts | linux-3.8.2-multilanes-patch/fs/aio.c:551-570 | Over every run the active requests are those that hold a slot and those that have posted and were not released. |
| AioRing.AvailIsFree | linux-3.8.2-multilanes-patch/include/linux/aio.h:176-180 | The modular difference of head and tail is the number of free slots. |
| AioRing.RingIsFifo | linux-3.8.2-multilanes-patch/fs/aio.c:892-991 | Over every run whose refills meet the guard, events come out once each in the order posted, none is overwritten, and unread events plus reserved slots stay below the ring's size. |
| AioRing.PublishAppends | linux-3.8.2-multilanes-patch/fs/aio.c:937-960 | Publishing the new tail appends exactly the event written. |
| AioRing.TakeRemovesOldest | linux-3.8.2-multilanes-patch/fs/aio.c:1000-1034 | Taking an event removes exactly the oldest one. |
| AioRing.UnguardedRefillLosesEvents | linux-3.8.2-multilanes-patch/fs/aio.c:471-516 | In a ring of any size an unguarded run posts as many events as there are slots, and a reader then finds none. |
| AioKick.OneRetryAtATime | linux-3.8.2-multilanes-patch/fs/aio.c:657-750 | In every run at most one thread is in the retry method of a request. |
| AioKick.KickIsNotLost | linux-3.8.2-multilanes-patch/fs/aio.c:850-864 | A kick during a run that ends in "try again" leaves the request on the run list. |
| AioKick.KickedIsPending | linux-3.8.2-multilanes-patch/fs/aio.c:621-633 | A live, kicked request that is not parked is on a list or in a run that will see the kick. |
| AioKick.StepKeepsInv | linux-3.8.2-multilanes-patch/fs/aio.c:759-781 | Every action keeps each request on exactly the one list its node says, once. |
| AioIovec.Kiocb.Advance | linux-3.8.2-multilanes-patch/fs/aio.c:1279-1300 | The remaining byte stream loses exactly the transferred prefix, empty segments included; the check fires if and only if more moved than was left. |
| AioIovec.Kiocb.Retry | linux-3.8.2-multilanes-patch/fs/aio.c:1302-1351 | In terms of what the file's operation returns: a write, or a read of a regular file, ends only when nothing is left or a call moved nothing, a read of a pipe or socket after one call; the stream has lost exactly what was moved, and when all has moved the total is returned. |
| AioIovec.StreamAdvance | linux-3.8.2-multilanes-patch/fs/aio.c:1279-1300 | Moving into a segment drops as many bytes off the stream. |
| BlockWrite.Page.Begin | linux-3.8.2-multilanes-patch/fs/buffer.c:1819-1898 | At most two reads are waited for. It fails exactly if the file system refuses a block or a block that has to be read cannot be. On success every block is fit to be copied into and has the bytes it had, those on disk, or the zeros of a new block; on failure nothing uninitialised can be exposed, and a block that could not be read has not changed. |
| BlockWrite.Page.AtMostTwoPartial | linux-3.8.2-multilanes-patch/fs/buffer.c:1819-1898 | No more than two blocks have an end of the write inside them. |
| BlockWrite.BeginBlockPrepares | linux-3.8.2-multilanes-patch/fs/buffer.c:1842-1884 | A block is prepared, or waits for a read because the write covers it only in part. |
| BlockWrite.ZeroNewCleans | linux-3.8.2-multilanes-patch/fs/buffer.c:1782-1816 | A newly allocated block is fit to be exposed once zeroed. |
| BlockWrite.Page.Commit | linux-3.8.2-multilanes-patch/fs/buffer.c:1901-1937 | Every block that has a byte of the range is dirty and uptodate; the page becomes uptodate exactly if all its buffers are; no data changes. |
| BlockWrite.Page.End | linux-3.8.2-multilanes-patch/fs/buffer.c:1968-2001 | After a full, short or failed copy nothing uptodate is uninitialised, and what is reported as written is in the page, in blocks that are dirty and uptodate. |
| BlockWrite.Page.Write | linux-3.8.2-multilanes-patch/fs/buffer.c:1819-2001 | A whole write, whatever the file system, the disk and the copy do: when it fails, every byte and flag of every block otherwise, and that what is reported as written is in dirty, uptodate blocks. |
| BlockWrite.UptodateKeptIff | linux-3.8.2-multilanes-patch/fs/buffer.c:1848-1869 | A byte of an uptodate block that the write does not cover keeps its value, exactly unless the block was a hole that is filled in a page that is not uptodate, and the byte was not zero. |
| PageCompletion.EndsExactlyOnce | linux-3.8.2-multilanes-patch/fs/buffer.c:257-368 | For every order of submissions and completions a page's I/O ends at most once, only after the last buffer, and has ended when all is over. |
| PageCompletion.ReadVerdict | linux-3.8.2-multilanes-patch/fs/buffer.c:257-313 | A page read is uptodate exactly when it has ended with all buffers uptodate and no error. |
| PageCompletion.ReadVerdictIff | linux-3.8.2-multilanes-patch/fs/buffer.c:257-313 | In terms of the buffers found and the disk's answers: a page read is uptodate exactly if it has ended, there was no error before, no lookup of a block failed, no answer was an error, and every buffer that had to be asked for was answered. |
| PageCompletion.WriteVerdict | linux-3.8.2-multilanes-patch/fs/buffer.c:319-368 | Once a writeback has ended, exactly the buffers that were mapped, dirty and not locked elsewhere have been answered by the disk; the page has an error exactly if it had one or an answer was one. |
| PageCompletion.AlwaysEnds | linux-3.8.2-multilanes-patch/fs/buffer.c:257-368 | Every run is finite, and one that cannot go on has ended the page's I/O once, with all of it over. |
| PageCompletion.HandlerChecksHold | linux-3.8.2-multilanes-patch/fs/buffer.c:319-368 | The checks in the completion handlers never fail. |
| PageCompletion.StartsInv | linux-3.8.2-multilanes-patch/fs/buffer.c:2093-2176 | The choice of buffers for a read or a write-back establishes the invariant, for any page. |
| PageCompletion.ReturnKeepsInv | linux-3.8.2-multilanes-patch/fs/buffer.c:1681-1775 | A write-back with nothing to submit ends the page's I/O itself, once. |
| BufferLru.LruIsSound | linux-3.8.2-multilanes-patch/fs/buffer.c:1233-1302 | Over any run from empty caches each CPU caches exactly its eight most recently used buffers, once each, most recent first; a buffer with count zero is in no cache. |
| BufferLru.Lru.Install | linux-3.8.2-multilanes-patch/fs/buffer.c:1233-1269 | The buffer becomes the most recent, at most one is evicted, and reference counts follow the cache exactly. |
| BufferLru.Lru.LookupBh | linux-3.8.2-multilanes-patch/fs/buffer.c:1274-1302 | Finds the first buffer that fits, moves it to the front and takes one reference for the caller. |
| BufferLru.Lru.Invalidate | linux-3.8.2-multilanes-patch/fs/buffer.c:1383-1393 | Empties the cache and drops exactly its references. |
| BufferLru.TouchSpec | linux-3.8.2-multilanes-patch/fs/buffer.c:1233-1269 | Using a buffer loses another one only if the list was full, and then the least recent. |
| BufferLru.TouchTaken | linux-3.8.2-multilanes-patch/fs/buffer.c:1233-1302 | Keeping eight entries gives the same as keeping all and looking at the first eight. |
| BufferLru.DropBuffers | linux-3.8.2-multilanes-patch/fs/buffer.c:3110-3143 | A page gives up its buffers if and only if no buffer is referenced, dirty or locked. |
| BufferLru.DroppedIsNotCached | linux-3.8.2-multilanes-patch/fs/buffer.c:3110-3143 | In every run, buffers that a page may give up are in no CPU's cache. |
| BlockDevice.ClaimsAreExclusive | linux-3.8.2-multilanes-patch/fs/block_dev.c:1233-1296 | In every run without a misled claim: one holder per device, never disk and partition together, holders counted once per partition claim and twice per disk claim, and the final checks never fire. |
| BlockClaims.ClaimIsSettled | linux-3.8.2-multilanes-patch/fs/block_dev.c:1233-1296 | In every run, told from its actions: exactly one of them settled the open of a claim. If it succeeded, the end of the claim adds the holder to those the device is exclusively open for and records it as holding it; otherwise nothing but the claim goes. |
| BlockClaims.OnlyClaimsGrant | linux-3.8.2-multilanes-patch/fs/block_dev.c:1450-1483 | No other action changes for whom a device is exclusively open, except that giving up one exclusive open takes exactly that one away. |
| BlockClaims.OpensAreTold | linux-3.8.2-multilanes-patch/fs/block_dev.c:1060-1212 | In every run a device is open exactly as often as it was opened with success and not closed. |
| BlockClaims.AlwaysCanClose | linux-3.8.2-multilanes-patch/fs/block_dev.c:1406-1494 | From every state of every run without a misled claim, all opens and claims can be given back until nothing is open or held. |
| BlockDevice.OpensNest | linux-3.8.2-multilanes-patch/fs/block_dev.c:1060-1212 | In every run the open count of a disk is its direct opens plus its partition count, which at rest is the number of open partitions. |
| BlockDevice.ClaimUnsafeIff | linux-3.8.2-multilanes-patch/fs/block_dev.c:648-707 | A claim that is started can run into the final check if and only if it was admitted in the window of a first open while the disk was held. |
| BlockDevice.MisledLeadsToBug | linux-3.8.2-multilanes-patch/fs/block_dev.c:1250-1278 | From every such claim there is a continuation in which the check fires. |
| BlockDevice.WindowIsReachable | linux-3.8.2-multilanes-patch/fs/block_dev.c:1060-1212 | A run from a closed disk into that window. |
| BlockDevice.StepKeepsInv | linux-3.8.2-multilanes-patch/fs/block_dev.c:684-780 | Every action of a run without a misled claim keeps the invariant and passes the checks. |
| BlockDevice.ReleaseKeepsInv | linux-3.8.2-multilanes-patch/fs/block_dev.c:1450-1483 | The same for giving up an exclusive open. |
| BlockDevice.StepKeepsOpens | linux-3.8.2-multilanes-patch/fs/block_dev.c:1406-1448 | Every action, whatever the claims, keeps the open counts right. |
| DcacheMove.Dcache.Move | linux-3.8.2-multilanes-patch/fs/dcache.c:2299-2352 | The target's path now finds the moved dentry, no other path finds either, all other dentries are found where they were; hash chains, child lists, tree shape and name storage stay sound. |
| DcacheMove.MovedUnambiguousIff | linux-3.8.2-multilanes-patch/fs/dcache.c:2299-2352 | Paths stay unambiguous if and only if nothing but the two dentries answered where the target would. |
| DcacheMove.MovedAnswers | linux-3.8.2-multilanes-patch/fs/dcache.c:2299-2352 | Which dentry answers to which path after a move. |
| DcacheMove.ExchangeKeepsAcyclic | linux-3.8.2-multilanes-patch/fs/dcache.c:2299-2352 | Exchanging two dentries, neither above the other, makes no cycle. |
| DcacheMove.Dcache.SwitchNames | linux-3.8.2-multilanes-patch/fs/dcache.c:2201-2240 | The dentry has the target's name, terminated and in bounds, in all four storage cases; the same external strings are owned, each by one dentry. |
| DcacheMove.SwitchedNames | linux-3.8.2-multilanes-patch/fs/dcache.c:2201-2240 | The names after the exchange; with both inline the target keeps its own. |
| DcacheMove.Dcache.Drop | linux-3.8.2-multilanes-patch/fs/dcache.c:439-476 | The dentry leaves the list it is on, every other one stays on exactly its list; and whose lock is taken. |
| DcacheMove.Dcache.Rehash | linux-3.8.2-multilanes-patch/fs/dcache.c:2145-2152 | The dentry joins the list; every other one stays on exactly its list. |
| DcacheMove.Dcache.Lookup | linux-3.8.2-multilanes-patch/fs/dcache.c:1962-2033 | Finds a dentry that answers if there is one, with one more reference, and nothing otherwise. |
| DcacheMove.Walk | linux-3.8.2-multilanes-patch/fs/dcache.c:1962-2033 | The walk along one chain decides whether any hashed dentry at all has that parent and hash and a name that compares equal, by the parent's own comparison if it has one. |
| DcacheMove.Dcache.Ancestor | linux-3.8.2-multilanes-patch/fs/dcache.c:2381-2390 | Finds the child of the ancestor on the way if and only if it is one. |
| DcacheMove.Dcache.Alloc | linux-3.8.2-multilanes-patch/fs/dcache.c:1288-1368 | A new child with a copy of the name, inline or external, keeps everything sound. |
| DcacheMove.Dcache.ObtainAlias | linux-3.8.2-multilanes-patch/fs/dcache.c:1598-1635 | A disconnected dentry without a parent joins its superblock's anonymous list; everything stays sound. |
| DcacheMove.HashedInOwnTable | linux-3.8.2-multilanes-patch/fs/dcache.c:113-125 | A hashed dentry with a parent is in range in its superblock's own table if that is loop-mounted, else in the shared one. |
| DcacheMove.DropLocksItsListIff | linux-3.8.2-multilanes-patch/fs/dcache.c:439-453 | In every sound state dropping a dentry locks the list it is on if and only if it is not a disconnected dentry with a parent. |
| DcacheMove.SpliceAndDrop | linux-3.8.2-multilanes-patch/fs/dcache.c:1671-1680 | A run in which an anonymous dentry is moved into the tree and then dropped from a bucket under the anonymous list's lock. |
| DcacheUmount.Dcache.Shrink | linux-3.8.2-multilanes-patch/fs/dcache.c:939-1011 | Ends; reports a bug if and only if some dentry has references beyond its children's, and otherwise frees every dentry once, after all its children. |
| DcacheUmount.Umount | linux-3.8.2-multilanes-patch/fs/dcache.c:1023-1039 | The superblock's tree without the mount's own reference, then the anonymous trees: it is a bug if and only if some tree has such a dentry, and every tree before that one is freed. |
| DcacheUmount.Dcache.Free | linux-3.8.2-multilanes-patch/fs/dcache.c:939-1011 | Freeing a childless dentry keeps the tree, the counts and the order of what was freed. |

## Left out

- Hard links: every entry has its own file here.
- Write-back order below the calls: each step is durable before the next one is taken.
- Calls that fail do so without effect; a failing `create_replica_dir` or dentry lookup before the first step of a rename is not modelled.
- Dentries of the underlying file systems: those that SFS keeps agree with disk. Unlinking removes an entry only if it is the one its dentry stands for, and fails otherwise.
- Renames and unlinks through a dentry whose visible entry is gone, or of a file that their own validation deletes: the code then goes on with a dentry that has no inode. For the destination of a rename such a step is taken to be a call that fails.
- SfsActions.Renaming.RenameOther: the ids that a validation which fails leaves in a dentry are not stated.
- A name and its dentry are used by one call at a time; a dentry is dropped from the cache only between calls.
- SfsRecordText.DecodedIsWritten: the blanks and plus signs that `sscanf` would also read are not modelled; no record is written with them.
- `sfs_rename_dir`: its way back after a failure is not implemented in the source.
- A parent without a replica in a partition is a partition without an entry.
- `dir.c`, `file.c`, `inode.c`, `symlink.c`, `dentry.c` and `super.c` (except its limit of 64 partitions and reading back the root's set): listing directories, forwarding to the underlying file systems, and mount options.
- Concurrent use of one directory's counters: they are updated by one caller at a time.
- The partitioned placement mode of `local_dispatch`, which is compiled out.
- SfsPlacement.Directory.LookupDir: takes the number of marks on disk to be within the threshold, which every operation of a running system keeps.
- Accounting of `aio_nr`, ring pages and user memory, timeouts, and the wake-ups of readers; `long` is 64 bits wide.
- AioRing.RingIsFifo: only `aio_read_evt` moves the head; a user program that writes the mapped head itself is not modelled.
- AioKick.StepKeepsInv: a retry method does not report a result for a request that was completed elsewhere.
- Delayed and unwritten buffers, and the `nobh` variants of block writes.
- BlockWrite.Page.Begin: bytes are uninitialised, from disk, zero or from the caller; their values are not modelled.
- Memory barriers, RCU walks and sequence-lock retries: locks are taken to exclude each other.
- `prune_dcache_sb`, clearing the disconnected flag, and the inode and alias lists of dentries.
- DcacheMove.Dcache.Alloc: memory for a dentry and its name is always available.
- The other files of the patch: program loaders (`binfmt_*`), system-call translation for 32-bit programs (`compat*`), character-device numbers (`char_dev.c`), block I/O vectors (`bio.c`), core dumps, and attribute changes.
