# Verification of the RSX180/RSX280 volume tools

This project models, in Dafny, the Linux tools that work on disks and system images of RSX180 and RSX280, and
proves properties of the model: the volume utility under `Tools/linux/vol180` with its file system, its formatter,
its checker and the system image commands of `vmr.c`; the terminal multiplexer under `Tools/linux/vtcp`; and the
rewriting of cell references in the spreadsheet under `calc/c`.

How the model is organised:

- **Cache and bitmaps.** `BufferCache` is the pool of 30 buffers of `buffer.c` with its round-robin replacement; a
  ghost image, the *logical volume*, says what the volume means whatever is cached. `Bitmap` has the scans of
  `bitmap.c`, `Allocation` reads the cluster bitmap as a set.
- **Files.** `FileMap`, `FileGrowth` and `FileExtension` describe a file by its data clusters (*slots*) and map blocks
  (*maps*); `Footprint` counts the clusters that it takes and will take. `FileContent` relates blocks to bytes.
  `StreamIo`, `StreamWrite`, `StreamLaws` and `FileTransfer` are reading, writing, and the loops above them;
  `Deletion` frees.
- **Volumes.** `VolumeRuns` says when all files together are in order (`VolumeOk`); `Inodes` and `IndexArea` hold the
  index file and its bitmap; `VolumeHistory` has histories of changes of both. `Directory`, `DirectoryFiles`,
  `FileNames`, `FileCreation`, `FileDeletion` and `FileLife` are the operations by name, `VolumeSession` the shell
  commands, and `SessionRuns` any number of them.
- **Formatter and checker.** `DiskLayout`, `FormatBits`, `Formatter`, `MasterDirectory`, `FormatLaws`, `FormatIndex`;
  `CheckerClaims`, `Checker`, `CheckerCompare`, `CheckerLaws`, `CheckerRuns`, `MissedMap`; `Mounting`,
  `FirstCheck` and `FirstSession` put them together, from a new disk to its first check and the first commands.
- **System images.** `PoolList`, `Pool`, `PoolRuns` are the pool of a system image; `Chains`, `SystemLists`,
  `NamedBlocks`, `TaskLists`, `PartitionPlan` and `PartitionLists` the lists in it; `SystemState` and `SystemPlan`
  say when all of them are in order, `SystemReferences` what tasks and partitions say about each other;
  `SystemOperations` and `TaskFixing` are the commands on the whole image, `SystemRuns` any number of them, and
  `SystemPages` says who owns the pages of memory meanwhile.
- **Others.** `Multiplex` is the packet protocol, `References` and `CellEdit` the cell references.

Predicates with large quantified bodies are folded behind a key (`forall key {:trigger …Key(key)} :: Folded(key) ==> …`)
and unfolded with `assert …Key(0)`, which keeps the loops over the heap cheap to verify.

## Model

| member | source | states |
|---|---|---|
| BufferCache.Cache.GetBlock | Tools/linux/vol180/buffer.c:88-130 | the buffer returned holds the block's logical contents and one more access to it is recorded; the logical volume stays, and the next buffer in turn that is not held is the one reassigned; NULL comes back only when every buffer is held |
| BufferCache.Cache.NewBlock | Tools/linux/vol180/buffer.c:132-168 | the same for a block that need not be read: it becomes zero in the logical volume, and no other block changes |
| BufferCache.Cache.FlushBlock | Tools/linux/vol180/buffer.c:72-80 | writing a buffer back changes the disk, never what the volume means |
| BufferCache.Cache.FlushBuffers | Tools/linux/vol180/buffer.c:82-86 | afterwards the disk is the logical volume |
| BufferCache.PointwiseUnique | Tools/linux/vol180/buffer.c:37-60 | the logical volume and the access counts are determined by buffers and disk |
| BufferCache.PinStep | Tools/linux/vol180/buffer.c:88-130 | the count of a buffer records one more access if and only if it does not wrap around at 256 |
| BufferCache.FewPinsLeaveRoom | Tools/linux/vol180/buffer.c:88-130 | with fewer outstanding accesses than buffers the replacement search succeeds |
| Bitmap.AllocCluster | Tools/linux/vol180/bitmap.c:44-86 | sets exactly the lowest clear bit below the number of blocks and returns its cluster's block; when there is none, nothing changes but one access is never given back |
| Bitmap.AllocClusters | Tools/linux/vol180/bitmap.c:88-164 | first fit: the lowest run of that many clear bits is set, or there is none and nothing changes |
| Bitmap.FreeCluster | Tools/linux/vol180/bitmap.c:166-190 | clears exactly the bit of that cluster |
| Bitmap.AllocInode | Tools/linux/vol180/bitmap.c:193-237 | sets exactly the lowest clear bit of the index bitmap and returns its entry number |
| Bitmap.FreeInode | Tools/linux/vol180/bitmap.c:239-277 | clears exactly that entry's bit, or refuses an entry beyond the index file |
| VolumeSteps.RunInRange | Tools/linux/vol180/bitmap.c:88-164 | the run found lies on the volume if and only if one exists there: with clusters of several blocks the scan goes on among padding bits |
| FileExtension.FileExtend | Tools/linux/vol180/fileio.c:491-620 | the file stays in order and gets block vbn; it fails if and only if a contiguous file has no such block or the clusters for the step are not free, and takes exactly those clusters: a data cluster, and a map block's own cluster when one starts; the allocation on record grows by a cluster's blocks for every cluster of data |
| Footprint.OwnedSize | Tools/linux/vol180/fileio.c:491-620 | a file takes one cluster for every slot and one for every map block that starts a cluster |
| Footprint.CostSplit | Tools/linux/vol180/fileio.c:491-620 | growing in two steps takes what growing at once takes, and leads to the same size |
| StreamIo.VbnToLbn | Tools/linux/vol180/fileio.c:269-327 | the block returned is the one that the file's map assigns, across direct pointers and the chain of map blocks, and the map block in whose range it lies is the current one |
| StreamIo.FileSeek | Tools/linux/vol180/fileio.c:329-353 | the position becomes the given one, or the end of the file if that comes first |
| StreamIo.FileRead | Tools/linux/vol180/fileio.c:372-430 | the result is exactly the file's bytes from the old position on, cut at the size, and the position advances by their number |
| StreamWrite.FileWrite | Tools/linux/vol180/fileio.c:433-489 | the data replaces, or follows, the bytes from the old position on, all others stay; the call is complete if and only if the file can have the blocks that the data reaches, and then exactly the clusters for them are taken; the last byte count is the one described below |
| StreamLaws.SizeAfterWrite | Tools/linux/vol180/fileio.c:433-489 | after a complete write the recorded size is the expected one exactly under a condition on the values before the call |
| StreamLaws.ContentIff | Tools/linux/vol180/fileio.c:433-489 | the file's bytes are the old ones with the data in place exactly under the same condition |
| StreamLaws.WriteInside | Tools/linux/vol180/fileio.c:433-489 | one call at a position inside the file: what it leaves is the old bytes overwritten, if and only if the condition held before |
| StreamLaws.OverwriteLosesTail | Tools/linux/vol180/fileio.c:433-489 | 600 bytes at the start of a file of 1034 bytes cut off its last ten |
| StreamLaws.AppendGainsGarbage | Tools/linux/vol180/fileio.c:433-489 | ten bytes behind a full block, without a seek, make the file 502 bytes too long |
| FileContent.OtherFileKept | Tools/linux/vol180/fileio.c:433-489 | writing one file leaves the map, the clusters and the bytes of every other file as they were |
| FileTransfer.Import | Tools/linux/vol180/main.c:525-533 | the loop appends all bytes of the host file if and only if they fit: into the blocks of a contiguous file, or into the free clusters, of which exactly the cost is taken |
| FileTransfer.Copy | Tools/linux/vol180/main.c:471-478 | the target gets the rest of the source under the same condition, and the source stays |
| FileTransfer.Export | Tools/linux/vol180/main.c:632-634 | the result is the rest of the file |
| FileTransfer.WritePieces | Tools/linux/vol180/fileio.c:433-489 | writes of any sizes append their concatenation, all of them completely if and only if everything fits |
| FileTransfer.ReadPieces | Tools/linux/vol180/fileio.c:372-430 | reads of any sizes together yield the bytes from the position on, as far as they go |
| FileTransfer.WriteThenRead | Tools/linux/vol180/fileio.c:372-489 | the stream round trip: what is written in any pieces comes back in any pieces |
| FileTransfer.ImportThenExport | Tools/linux/vol180/main.c:489-650 | the same for the two loops with any buffer sizes |
| Deletion.FreeFile | Tools/linux/vol180/fileio.c:1004-1034 | exactly the clusters of the file become free, data and map blocks, and no other bit or block changes |
| VolumeRuns.StepKeepsVolume | Tools/linux/vol180/fileio.c:433-1051 | creation, growth, writing and deletion keep every file in order: no cluster has two owners, and the bitmap marks exactly what is owned |
| VolumeRuns.StepKeepsFile | Tools/linux/vol180/fileio.c:433-1051 | a change of one file leaves record and bytes of every other one |
| VolumeSteps.WriteStep | Tools/linux/vol180/fileio.c:433-489 | a write, complete or cut short, is one such change |
| VolumeSteps.ExtendStep | Tools/linux/vol180/fileio.c:491-620 | so is an extension, successful or not |
| VolumeSteps.DeleteStepOf | Tools/linux/vol180/fileio.c:1004-1034 | so is freeing the clusters of an inode |
| VolumeSteps.CreateRun | Tools/linux/vol180/fileio.c:906-928 | so is the allocation of a contiguous file, which happens if and only if a free run of that length exists |
| VolumeHistory.HistoryIsSafe | Tools/linux/vol180/fileio.c:433-1051 | in every moment of every history of changes of files and of the index, the volume is in order and the index lies where it did |
| VolumeHistory.HistoryKeepsFile | Tools/linux/vol180/fileio.c:433-1051 | in every moment a file that no change concerns has the same record and bytes |
| VolumeHistory.HistoryOfEntry | Tools/linux/vol180/indexf.c:61-108 | in every moment an inode that no change concerns is the same, and its mark is what searches and deletions made of it |
| VolumeHistory.HistoryRestores | Tools/linux/vol180/bitmap.c:44-277 | conservation: when the same clusters are owned as before, the cluster bitmap is byte for byte what it was, and the index bitmap bit for bit if what was marked has been freed |
| VolumeHistory.ReachesOn | Tools/linux/vol180/fileio.c:836-1051 | what operations do one after the other is again a history, concerning the files of both |
| VolumeHistory.ReachesKeepsInode | Tools/linux/vol180/indexf.c:78-95 | operations change no inode but those that they concern |
| Inodes.WriteInode | Tools/linux/vol180/indexf.c:78-95 | exactly the 64 bytes of that inode change |
| Inodes.NewInode | Tools/linux/vol180/indexf.c:97-108 | the first index entry that is neither marked nor linked, with all entries up to it marked; 0 if and only if there is none |
| Inodes.CloseFile | Tools/linux/vol180/fileio.c:642-670 | the inode gets the header's sizes, pointers and date, if it is in use |
| Inodes.SavedFields | Tools/linux/vol180/fileio.c:642-670 | every field reads back as it was saved, and all others stay |
| Inodes.ClosedThenLoaded | Tools/linux/vol180/fileio.c:642-832 | closing and opening again yields the same header |
| IndexArea.WrittenKeepsVolume | Tools/linux/vol180/indexf.c:78-95 | what is written to the index touches no file and no cluster bit |
| Directory.Match | Tools/linux/vol180/dirio.c:49-68 | the loops decide equality of the names up to the first blank, and of the version if one is given |
| Directory.SetDirEntry | Tools/linux/vol180/dirio.c:38-47 | fills all 16 bytes of an entry in place |
| Directory.MadeEntry | Tools/linux/vol180/dirio.c:38-68 | an entry matches the name that was entered, with its version and its inode |
| Directory.FoundByNameOnly | Tools/linux/vol180/dirio.c:49-68 | without blanks inside names, an entry is found by its own name only |
| Directory.BlankInName | Tools/linux/vol180/dirio.c:49-68 | the file "A B" is found under the name "A" |
| Directory.ChosenIsHighest | Tools/linux/vol180/fileio.c:773-798 | without a version, the entry with the highest positive one is opened, the first of several equal ones |
| Directory.ChosenIsExact | Tools/linux/vol180/fileio.c:773-798 | with a version, the last entry with exactly that one |
| Directory.CreatedIsOpened | Tools/linux/vol180/fileio.c:836-965 | the entry just created is the one opened by name if and only if the version has not overflowed; otherwise it is the old one |
| Directory.CreatedVersion | Tools/linux/vol180/fileio.c:875-904 | creation changes one entry, which was free, and every other one of the name has a lower version |
| Directory.CreatedAndRemoved | Tools/linux/vol180/fileio.c:836-1051 | after creation and removal every search of the directory has the result that it had before |
| DirectoryFiles.FindFile | Tools/linux/vol180/fileio.c:773-798 | the loop over the directory's bytes finds the entry that the specification chooses |
| DirectoryFiles.ScanForCreate | Tools/linux/vol180/fileio.c:875-904 | finds the first free place, the highest version, and whether the version asked for exists |
| DirectoryFiles.FindFirst | Tools/linux/vol180/fileio.c:996-1003 | finds the first entry that matches |
| DirectoryFiles.DeletesNewestIff | Tools/linux/vol180/fileio.c:967-1003 | without a version, what is deleted is what would be opened if and only if the first entry of the name has a positive version and no later one a higher |
| DirectoryFiles.OldestIsDeleted | Tools/linux/vol180/fileio.c:967-1003 | of the versions 1 and 2, in this order, the second is opened and the first deleted |
| DirectoryFiles.PutEntry | Tools/linux/vol180/fileio.c:932-948 | replaces or appends exactly that entry; fails if and only if the clusters for one more block are needed and not free, and then the entries of the last block are lost |
| FileNames.NewNameParses | Tools/linux/vol180/fileio.c:222-265 | the name put together for reopening means the new file if and only if it does not start with a bracket of its own |
| FileNames.NameForms | Tools/linux/vol180/fileio.c:238-262 | what a name with or without an extension, with or without a version, means, each part cut off at its width |
| FileNames.VersionForms | Tools/linux/vol180/fileio.c:256 | the value of a version: white space and a sign may come first, and what is no number is 0 |
| FileNames.BracketExample | Tools/linux/vol180/fileio.c:957-963 | "[][X" names a file that cannot be reopened under the name put together for it |
| FileCreation.CreateFile | Tools/linux/vol180/fileio.c:836-965 | the outcome is known beforehand: index full, file exists, no run, no room for the entry, or made; what it changes is a history of its inode and the directory; after success the inode is byte by byte that of a plain or a contiguous file with the name, owner and version asked for, one use later than before, entry, clusters and bitmap agree with it, and the new file is open unless its version overflowed or its name starts with a bracket; after a failure its inode stays marked |
| FileDeletion.DeleteFile | Tools/linux/vol180/fileio.c:967-1051 | succeeds if and only if the first matching entry leads to an inode in use; its clusters, entry, inode and mark are gone, all others stay, and every live file still has an inode in use |
| FileLife.ImportFile | Tools/linux/vol180/main.c:489-545 | create, write and close: succeeds if and only if the file can be made and found again and the data fits; then its inode still says what it said when the file was made, with the new sizes, and the file holds the bytes; exactly the clusters foreseen are taken |
| FileLife.CreateWriteDelete | Tools/linux/vol180/fileio.c:836-1051 | goes through if and only if the import does; index bitmap, other inodes and every search are restored, and the cluster bitmap is byte for byte the same if and only if the directory did not have to grow |
| VolumeSession.ImportCommand | Tools/linux/vol180/main.c:489-545 | whatever the outcome, inodes, files, marks and entries agree again and every other file keeps its bytes |
| VolumeSession.DeleteCommand | Tools/linux/vol180/fileio.c:967-1051 | the same for a deletion, which succeeds if and only if an entry matches |
| VolumeSession.ExportCommand | Tools/linux/vol180/main.c:612-650 | the bytes that were imported come back, and nothing changes but a date |
| SessionRuns.Run | Tools/linux/vol180/main.c:714-918 | any number of imports, deletions and exports, up to one that finds the disk or the index full: in every moment between two of them volume, index, directory and contents agree, and each has the effect that it should have; an export yields the bytes imported |
| SessionRuns.BytesStay | Tools/linux/vol180/main.c:714-918 | over any run, in every moment the volume holds the bytes that were imported as the file of that inode, until a command deletes it |
| CheckerClaims.ClaimsAreClusters | Tools/linux/vol180/check.c:952-1122 | the checker marks every cluster of a file in order exactly once, except the cluster of a last map block that is linked but still empty |
| CheckerClaims.SoundIsReadable | Tools/linux/vol180/check.c:952-1122 | it can follow the pointers of every file in order |
| CheckerClaims.NoRepeats | Tools/linux/vol180/check.c:978-983 | no cluster is reported as allocated twice if and only if all claims differ |
| Checker.MarkFile | Tools/linux/vol180/check.c:959-1120 | the clusters of one inode are marked in the order of its claims, and those met before are counted |
| CheckerCompare.CheckAllocMap | Tools/linux/vol180/check.c:916-1187 | the bitmap afterwards marks exactly the claimed clusters, and the messages are the repeated claims and the bits that differed |
| CheckerLaws.ConsistentVolume | Tools/linux/vol180/check.c:952-1122 | on a volume in order nothing is claimed twice, and what is claimed is what is marked, up to the missed clusters |
| CheckerLaws.RebuiltIffNoneMissed | Tools/linux/vol180/check.c:952-1122 | the rebuilt bitmap is the one on disk if and only if no file has a map block that is linked but empty |
| CheckerLaws.AllInodesChecked | Tools/linux/vol180/check.c:252-330 | all inodes are looked at if and only if the index file has at most 8191 blocks |
| CheckerRuns.CheckTwice | Tools/linux/vol180/check.c:916-1187 | a second run rebuilds the same bitmap, changes nothing, and reports only what is claimed twice |
| CheckerRuns.CheckSound | Tools/linux/vol180/check.c:916-1187 | on a volume in order the first run prints one message for each missed map block and each padding bit set, and unmarks just those map blocks; the second prints nothing |
| MissedMap.MissedOnSoundVolume | Tools/linux/vol180/check.c:1024-1117 | a volume in order with one file of 173 blocks whose second map block the checker takes for free |
| MissedMap.MissedBySize | Tools/linux/vol180/check.c:1024-1117 | with clusters of single blocks, a file without spare blocks loses a map block in this way if and only if its blocks fill the direct pointers and some map blocks completely: 173, 341, 509 and so on |
| DiskLayout.Plan | Tools/linux/vol180/mkdisk.c:38-107 | refuses exactly the arguments outside the limits; otherwise the cluster factor is the least that fits the disk, index file and bitmaps are as large as they must be, and the areas lie one behind the other in whole clusters |
| DiskLayout.AreasOrdered | Tools/linux/vol180/mkdisk.c:96-107 | boot blocks, index file, bitmaps and master directory follow each other without overlap |
| Formatter.CreateDisk | Tools/linux/vol180/mkdisk.c:38-292 | exactly the rounded number of blocks is written, with volume id, bitmaps and master directory in their places, and the seven system inodes, each with its kind, protection, name and sizes; a byte is stored behind the block buffer if and only if the system files take at least 3968 clusters |
| Formatter.OverrunInput | Tools/linux/vol180/mkdisk.c:38-292 | 65536 blocks and 32768 files are accepted and reach that case |
| MasterDirectory.MasterEntries | Tools/linux/vol180/mkdisk.c:267-280 | the new directory has the seven system files, each under its own name with version 1, and then free entries |
| FormatLaws.NewVolumeOk | Tools/linux/vol180/mkdisk.c:38-292 | a new volume is in order with the master directory as its only live file |
| FirstCheck.CheckNew | Tools/linux/vol180/check.c:916-1187 | the first check of a new volume for at most 65528 files reports nothing and changes no byte; for more, it looks at no inode, reports every cluster of the system files, and unmarks all of them |
| FirstCheck.WhatIsFound | Tools/linux/vol180/check.c:952-1187 | what the claims of the inodes looked at and the bits that differ come to in both cases |
| FormatLaws.MountsAs | Tools/linux/vol180/mount.c:48-130 | the volume id block that was written reads back as the layout |
| FormatIndex.FirstNewInode | Tools/linux/vol180/indexf.c:97-108 | the first file gets inode 8, unless the volume was made for 65536 files: then there are none |
| Mounting.MountDisk | Tools/linux/vol180/mount.c:48-130 | refuses exactly what is not a volume of this version; otherwise the cache is empty and the master directory's header is loaded |
| Mounting.MasterIsOpen | Tools/linux/vol180/check.c:216-246 | after mounting a new volume the master directory is open and all that creation and deletion rely on is in order |
| FirstCheck.FormatAndCheck | Tools/linux/vol180/mkdisk.c:38-292 | a disk that is made, mounted and checked shows no error if and only if it was made for at most 65528 files; otherwise the check leaves a bitmap with no cluster marked |
| FirstSession.NewIsConsistent | Tools/linux/vol180/mkdisk.c:38-292 | on a new volume inodes, files, marks and entries agree |
| FirstSession.FormatAndRun | Tools/linux/vol180/main.c:714-918 | from formatting through any number of imports, deletions and exports everything stays in order, with clusters of any size; with clusters of several blocks, for commands that the new disk can afford |
| FirstSession.AffordableIsFunded | Tools/linux/vol180/mkdisk.c:38-292 | what a new disk can afford can be computed from its layout: everything but the clusters of the system files is free |
| Pool.SystemImage.PoolInit | Tools/linux/vol180/vmr.c:245-266 | a pool that was not set up becomes one free area from the end of the system to 0xf000 |
| Pool.SystemImage.PoolAlloc | Tools/linux/vol180/vmr.c:269-301 | first fit: the lowest free address where the rounded size fits, and exactly those bytes leave the list; 0 if and only if there is none |
| Pool.SystemImage.PoolFree | Tools/linux/vol180/vmr.c:304-346 | exactly the bytes of the area become free, and the list is in canonical form again |
| Pool.SystemImage.PoolAvail | Tools/linux/vol180/vmr.c:349-363 | the sum of the free areas, without overflow |
| PoolList.CanonicalForm | Tools/linux/vol180/vmr.c:304-346 | a sorted list without touching areas is determined by the addresses that it covers |
| PoolRuns.RunIsPartition | Tools/linux/vol180/vmr.c:269-346 | in every state of every run, free and live areas tile the pool |
| PoolRuns.HistoryIndependent | Tools/linux/vol180/vmr.c:269-346 | the free list depends on what is live only, not on the order of events |
| PoolRuns.FreeUndoesAlloc | Tools/linux/vol180/vmr.c:269-346 | freeing what was just allocated restores the very same list |
| PoolRuns.FreesCommute | Tools/linux/vol180/vmr.c:304-346 | the order of two frees does not matter |
| NamedBlocks.FindNamed | Tools/linux/vol180/vmr.c:686-703 | finds the first block of a list with the name |
| SystemOperations.Install | Tools/linux/vol180/vmr.c:706-897 | refuses exactly a name in use, a partition that is not there, and an exhausted pool; otherwise the new block leads to the partition of the name asked for and says what was asked for, where an option goes before the header; a program that is too big is not linked; all other tasks lead where they did, and no other field of a listed block changes |
| TaskLists.InstallTask | Tools/linux/vol180/vmr.c:823-897 | the new block goes behind all blocks with at least the priority of the header; if and only if the end of the program and its increment exceed the limit it is not linked, and then stays allocated |
| TaskLists.RemoveTask | Tools/linux/vol180/vmr.c:899-929 | exactly the first block of the name leaves the list and goes back to the pool, unless it is fixed |
| TaskLists.InstallThenRemove | Tools/linux/vol180/vmr.c:706-929 | task list and free list are as they were |
| TaskLists.InstalledInOrder | Tools/linux/vol180/vmr.c:886-897 | the list stays sorted, and the new block comes last among equals |
| TaskLists.OverrideOrder | Tools/linux/vol180/vmr.c:706-897 | with a priority given on installation, the list stays sorted if and only if every priority that is at least the header's is at least the given one, and every lower one at most that |
| TaskLists.OverrideExample | Tools/linux/vol180/vmr.c:706-897 | header priority 10 and given priority 1: the block comes before one with priority 5 |
| PartitionLists.AddPartition | Tools/linux/vol180/vmr.c:1199-1293 | adds exactly the partition that the plan places, with the name and the attributes asked for, not busy, and nothing left over in its block; or nothing when there is no place, no pool, no size, or the name is in use |
| PartitionLists.RemovePartition | Tools/linux/vol180/vmr.c:1296-1330 | exactly the named partition leaves the list and its block the pool, unless it has sub-partitions or waiting tasks |
| PartitionLists.AddThenRemove | Tools/linux/vol180/vmr.c:1199-1330 | partition list and free list are as they were |
| PartitionLists.FindGap | Tools/linux/vol180/vmr.c:1332-1360 | the search in bytes finds the gap that the plan names |
| PartitionLists.AllocSub | Tools/linux/vol180/vmr.c:1362-1385 | the sub-partition goes into that gap, without a name, busy, and naming its main partition; nothing happens without one |
| PartitionPlan.StaysSortedIff | Tools/linux/vol180/vmr.c:1199-1293 | for all four combinations of wildcards, partitions stay sorted and disjoint if and only if the base is given, or the last partition ends within 16 bits, or there is room in front of some partition |
| PartitionPlan.AcceptedIffFree | Tools/linux/vol180/vmr.c:1199-1293 | a given base and size are accepted if and only if no other partition overlaps them |
| PartitionPlan.WildcardIsLowest | Tools/linux/vol180/vmr.c:1199-1293 | no lower page behind the kernel would have done for a wildcard base |
| PartitionPlan.WildcardFinds | Tools/linux/vol180/vmr.c:1199-1293 | the search fails only if no page from 16 on is free with that many pages behind it |
| PartitionPlan.WithinIff | Tools/linux/vol180/vmr.c:1199-1293 | a new partition is not empty and ends inside the memory if and only if the request is sane: a given base below page 256 with a wildcard size, base and size within 256 pages, or some free page with room below page 256 |
| PartitionPlan.BeyondTop | Tools/linux/vol180/vmr.c:1199-1293 | a partition at page 300 is accepted |
| PartitionPlan.OutOfOrder | Tools/linux/vol180/vmr.c:1199-1293 | an end beyond 16 bits lets the next partition overlap |
| PartitionPlan.BelowKernelIff | Tools/linux/vol180/vmr.c:1219 | a wildcard base lies below the kernel's end if and only if some partition ends below page 16 and is the last one or has room behind it |
| PartitionPlan.BelowKernelEnd | Tools/linux/vol180/vmr.c:1199-1293 | page 4 is such a base behind a partition of pages 0 to 3 |
| PartitionPlan.SubIffRoom | Tools/linux/vol180/vmr.c:1332-1385 | below the limits of a byte, a sub-partition is found if and only if there is room, and stays inside and in order |
| PartitionPlan.EmptyIff | Tools/linux/vol180/vmr.c:1332-1360 | an empty partition takes a sub-partition if and only if its size modulo 256 suffices: one of 256 pages takes none |
| PartitionPlan.ByteLimits | Tools/linux/vol180/vmr.c:1332-1360 | a sub-partition of no pages fits into a full partition |
| SystemOperations.SetPar | Tools/linux/vol180/vmr.c:1199-1293 | the partition is added where the plan says, or refused for exactly the causes above; partitions stay in order if and only if the request is sane; a task whose partition was removed leads again exactly if the new block is at the same address |
| SystemOperations.NoPar | Tools/linux/vol180/vmr.c:1296-1330 | exactly the tasks that named the removed partition lead to no listed one any more |
| TaskFixing.FixTask | Tools/linux/vol180/vmr.c:980-1066 | follows the task's own pointer to its partition; the task is fixed if and only if it exists, is not fixed, has a possible size, and its partition has room; then task and partition block point at each other, the task has its mark and a context block, and nothing else about the task, the partition or any other block changes |
| TaskFixing.SizeIs | Tools/linux/vol180/vmr.c:931-953 | the size of a task is the least number of pages with room for its blocks and its addresses; 0 stands for none, or for more than there can be |
| TaskFixing.MakeContext | Tools/linux/vol180/vmr.c:1041-1053 | when the pool has no room for the context block, the pointer is 0 and the zeros go to the first 83 or 111 bytes of the image, and nowhere else |
| SystemRuns.Execute | Tools/linux/vol180/vmr.c:1550-1840 | each of INS, REM, SET /PAR, SET /NOPAR and FIX has its effect, or none for exactly the causes that it refuses: the block added, removed or fixed, the area that the pool loses or gets, and all fields that stay; it keeps pool, lists and partition names consistent; sane requests do not make partitions overlap; all tasks still lead to a listed partition if and only if the command does not remove one that a task names |
| SystemRuns.Commands | Tools/linux/vol180/vmr.c:1550-1840 | any number of them: every command has its effect, and all that is said of one holds in every moment, up to a FIX that would follow a task to a removed partition; without such a removal before it, none does |
| SystemRuns.FromTheStart | Tools/linux/vol180/vmr.c:245-266 | the same from a pool that was just set up, with no tasks and no partitions |
| SystemRuns.OrphanedTask | Tools/linux/vol180/vmr.c:1296-1330 | SET /PAR, INS and SET /NOPAR leave a task whose partition is gone, and FIX would read out of a free block |
| SystemRuns.TwoOfOneName | Tools/linux/vol180/vmr.c:817-884 | INS twice, the second time with TASK=, yields two tasks of one name |
| SystemPages.CommandPages | Tools/linux/vol180/vmr.c:980-1066 | fixed tasks belong one to one to the busy partitions and the sub-partitions; a command leaves it so if and only if it neither removes a busy partition nor installs a task whose header says that it is fixed |
| SystemPages.OwnedIffOrderly | Tools/linux/vol180/vmr.c:1550-1840 | so a run keeps it in every moment if and only if none of its commands does either |
| SystemPages.PagesApart | Tools/linux/vol180/vmr.c:1332-1385 | then every fixed task has pages inside the memory, enough for its blocks and addresses, and shares none of them with another fixed task |
| SystemPages.NoSharedPages | Tools/linux/vol180/vmr.c:1550-1840 | memory protection over whole runs: from a pool that was just set up, in every moment every fixed task has pages of its own, as long as requests are sane and none of those two commands is given |
| SystemPages.BusyRemoved | Tools/linux/vol180/vmr.c:1296-1330 | SET /PAR, INS, FIX, SET /NOPAR and SET /PAR again: the pages of a fixed task become a partition that is not busy |
| Multiplex.Port.ProcessSerialChar | Tools/linux/vtcp/main.c:313-346 | what one character does to the receiver and to the lines |
| Multiplex.ProcessTcpChars | Tools/linux/vtcp/main.c:348-364 | packets of 15 characters and a shorter last one, with the top bit of each character taken off; without multiplexing just the characters |
| Multiplex.MaskedChars | Tools/linux/vtcp/main.c:348-364 | a character below 128 is sent as it is, any other one less 128 |
| Multiplex.WireFormat | Tools/linux/vtcp/main.c:313-364 | line and count in the bits of a header, as the sender puts them together and the receiver takes them apart |
| Multiplex.PacketArrives | Tools/linux/vtcp/main.c:313-346 | a header and its characters reach the announced line, whatever the receiver was waiting for |
| Multiplex.InterleavingArrives | Tools/linux/vtcp/main.c:313-364 | messages for any lines in any order: every line gets exactly its own characters in their order |
| Multiplex.Transmit | Tools/linux/vtcp/main.c:313-364 | the same for the two loops put together, sender and receiver; characters below 128 arrive as they were sent |
| Multiplex.PlainArrives | Tools/linux/vtcp/main.c:313-364 | what a line should receive of such characters is what was sent to it |
| CellEdit.Cell.GetXY | calc/c/calc.c:540-613 | reports the coordinates of the reference that the text has at that position; the buffer is rewritten exactly when the guards hold, to the text with the shifted reference in place of the old one, and the position is behind it; what is left of the buffer is cleared or as before |
| References.RewrittenParses | calc/c/calc.c:540-613 | the new text parses to the shifted coordinates with the same signs |
| References.DollarsStay | calc/c/calc.c:575-579 | after a rewrite the reference has the same row if it was absolute, and the row shifted by the edit if not; the same for its column, and its signs stay |
| References.BothDollars | calc/c/calc.c:540-613 | "$A$1" stays when a row or a column is inserted |
| References.NoDollars | calc/c/calc.c:540-613 | "B1" becomes "C1" when a column is inserted |
| References.AroundRewritten | calc/c/calc.c:585-609 | the text around the reference is the same |
| References.ThereAndBack | calc/c/calc.c:1522-1601 | an insertion and the deletion that undoes it leave the reference in canonical form |
| References.RestoredIffCanonical | calc/c/calc.c:1522-1601 | so the text is restored if and only if the reference was written canonically |
| References.LeadingZero | calc/c/calc.c:540-613 | "A01" becomes "A2" and then "A1" |

## Findings

Places where the code does not do what it seems meant to do; the lemmas and clauses named say when exactly.

- A write that crosses a block boundary inside a file and ends before its last block forgets the last byte count: the
  file loses its tail (`StreamLaws.OverwriteLosesTail`). A write on the block behind a full last block, without a
  seek, makes the new last block inherit the old count (`StreamLaws.AppendGainsGarbage`). `SizeAfterWrite` and
  `ContentIff` say exactly when this happens.
- When the directory's last block is full and the disk has no cluster for another one, `create_file` drops the last 32
  entries of the directory (`DirectoryFiles.PutEntry`).
- Every failure of `create_file` behind the search for an inode leaves that entry marked (`FileCreation.CreateFile`).
- Version 32767 is followed by a negative one: the next `create_file` opens the old file (`Directory.CreatedIsOpened`).
- A file name that starts with a bracket cannot be reopened by `create_file` (`FileNames.BracketExample`).
- A name with a blank inside is found under a shorter name (`Directory.BlankInName`); a version given to `create_file`
  serves only to refuse an existing one (`FileCreation.CreateFile`). `delete_file` without a version removes the first
  match, which need not be the newest (`DirectoryFiles.DeletesNewestIff`, `OldestIsDeleted`).
- A contiguous file that cannot grow claims one used block more than it has (`FileExtension.FileExtend`).
- `alloc_cluster` on a full disk never gives back its last buffer (`Bitmap.AllocCluster`), and the access count of a
  buffer wraps at 256 (`BufferCache.PinStep`). With clusters of several blocks it scans one bit per block and so goes
  on among padding bits (`VolumeSteps.RunInRange`).
- The checker takes the cluster of a map block that is linked but still empty for free (`MissedMap.MissedOnSoundVolume`,
  `MissedBySize`). With 8192 index blocks its inode count wraps to 0 and it takes every cluster for free (`CheckerLaws.AllInodesChecked`): the
  first check of a new volume for more than 65528 files unmarks them all (`FirstCheck.FormatAndCheck`).
- `create_disk` stores a byte behind its block buffer from 3968 system clusters on (`Formatter.OverrunInput`). A volume
  for 65536 files has none, because its count is stored in 16 bits (`FormatIndex.FirstNewInode`). The system inodes of
  a new disk record the cluster factor of the volume mounted at that moment, not their own.
- `install_task` does not free the block of a program that is too big (`TaskLists.InstallTask`), and searches its place
  by the priority of the header even when another one is given (`TaskLists.OverrideExample`).
- `install_task` compares the name in the header with the tasks installed, but enters the one given with `TASK=`: task
  names need not be unique (`SystemRuns.TwoOfOneName`). Partition names are.
- `add_partition` does not check that a given size ends inside the memory (`PartitionPlan.BeyondTop`; exactly when:
  `WithinIff`), from there on partitions can overlap (`OutOfOrder`; `StaysSortedIff`), and a wildcard base can lie below
  the kernel's end, which the comment in the code rules out (`BelowKernelEnd`; `BelowKernelIff`). `find_gap` computes in
  bytes: a partition of 256 pages takes no sub-partition (`EmptyIff`).
- `remove_partition` does not look for tasks that belong to the partition (`SystemOperations.NoPar`); `fix_task` follows
  the pointer of such a task out of a freed block (`SystemRuns.OrphanedTask`). Nor does it look at the busy bit: the
  pages of a fixed task can become another partition (`SystemPages.BusyRemoved`; `CommandPages`). No command frees a
  sub-partition.
- `install_task` takes over the bit that says that a task is fixed from the header of the task file: such a task counts
  as fixed without having any pages (`SystemPages.CommandPages`).
- `fix_task` goes on when there is no pool for the context block: the zeros go to the first bytes of the image, and the
  task counts as fixed (`TaskFixing.MakeContext`).
- A reference that was not written canonically, for example with a leading zero, does not survive an insertion and the
  deletion that undoes it (`References.RestoredIffCanonical`, `LeadingZero`).
- The documentation of the volume format speaks of cluster factors up to 4 and 2^24 clusters; `create_disk` makes
  factors 0 to 3 and at most 4194304 blocks. The model follows the code.

## Left out

- StreamWrite.FileWrite: with clusters of more than one block the code does not notice that they run out, and goes on with clusters behind the end of the volume; the contract asks for as many free clusters as the call takes, and says nothing about calls beyond that. The same holds for FileExtend, Import, Copy, WritePieces, CreateFile, ImportFile and CreateWriteDelete, which are stated under the same condition; with clusters of one block there is none.
- FileExtension.FileExtend: only for the next block, as file_write calls it; a jump over several blocks is not modelled.
- BufferCache.Cache.GetBlock: the other members ask for enough free buffers, so that the answer NULL does not come up in them; the crash after it is not modelled.
- Bitmap.AllocClusters: for no clusters at all it returns a block without allocating it; contiguous files are asked for at least one block.
- FileTransfer.WritePieces: the first piece is not empty unless the file has a block, because an empty write to an empty file allocates one.
- FileLife.ImportFile: when another file is opened in place of the new one, after a version overflow or for a name with a bracket, the write to that other file is not modelled.
- SessionRuns.Run: copies and directory changes are no commands of it, and with clusters of more than one block it asks for enough free clusters beforehand and for no contiguous files; after a full disk the session ends, because that leaves a buffer held, and it ends in front of an export once an import has made a file without completing it, because that file's bytes are not known.
- Directories: open_md_file and create_dir; all operations by name work in the current directory, and a name that leads to another one is reported as such.
- The list of file control blocks with its reference counts (get_fcb, free_fcb): a file is open once, and a file that is open is not deleted.
- The system files below the master directory are one area to the file system; their own growth, and update_boot, are not modelled.
- Dates, users, groups and permissions are parameters or carried along; listings and messages are counted at most.
- The checks of check_index_file, check_master_dir and check_directories, which repair names and entries, and list_cluster_usage.
- FirstCheck.FormatAndCheck: the byte that create_disk stores behind its buffer from 3968 system clusters on is reported, but what it hits there is not looked at; the same holds for FormatAndRun.
- Mounting.MountDisk: the image has the size that its volume id block gives; offsets of partitions inside an image and remote images are left out.
- TaskFixing.FixTask: what it writes into the pages of the partition (vectors and the contents of the task file) and the size of the image are not modelled; the cells where the lists start lie behind the first 111 bytes of the image, as zeros go there when the pool is exhausted; unfix_task, which is empty.
- SystemOperations.Install: the parsing of options and the bits of the attribute byte that they set are parameters, and so is the number of blocks of the task file; the checks of the task file's header and of the devices that the task is given are left out.
- Device lists and terminal settings of a system image.
- Bounds of strings in the terminal multiplexer, sockets and the serial line: characters and lines are sequences.
- Formula evaluation of the spreadsheet; only references and their rewriting are modelled.
