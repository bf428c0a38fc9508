# MeowMeowOS: verified models of the kernel and its libc

Dafny models of the five parts of MeowMeowOS whose correctness spans loops, files and whole runs, with
proofs. Check everything with `dafny verify dfyconfig.toml`.

Code that changes things in place is modelled by methods with the source's loops, on classes whose fields
are the source's; each method is proved equal to a function of the state before it, and the theorems are
about those functions and about runs of them.

## What is modelled

**FAT16 file system** (`fat_*.dfy`, `path_text.dfy`). The disk is an array of 512-byte sectors. `FatDisk` reads
and writes it as a FAT (kept twice), a root directory and clusters; `FatNames` has the short and long
names and `FatShortNames` what the short ones tell apart; `FatDir`, `FatDirIo`, `FatDirWrite` and `FatDirUpdate` have the 32-byte slots and the loops over them, `FatHits` the
list of all entries a name answers to, `FatOrphans` what an orphaned long name does to the entry behind it;
`FatFiles` and `FatChain` the cluster chains; `FatVolume`, `FatVolumeIo` and `FatDirectory` the calls on one
directory, against a map from names to bytes; `FatPaths`, `FatChdir`, `FatFileSystem`, `FatMkdir` and `FatCopy` the
working directory and the calls that take paths; `FatOwned`, `FatRun` and `FatTreeRun` whole runs over the whole
tree; `FatFormat` and `FatFormatDrive` the format that keeps `/system`.

**Scheduler** (`task_*.dfy`). A state machine whose steps are the locked sections of `task.c`. `TaskKernel` has
the loops, `TaskInvariant` what every run keeps, `TaskFairness` bounded waiting in passes and `TaskTicks` what
time does: the quantum, bounded waiting by the clock, sleepers, signals and the status of a task that has ended.

**Allocators** (`block_*.dfy`, `user_*.dfy`, `kernel_heap.dfy`) and, beneath them, frames, page tables and the
program loader (`pmm.dfy`, `vmm.dfy`, `elf.dfy`). `BlockList` tiles a region with blocks; `BlockLinks` and
`BlockHeap` have the linked headers in memory that represent it; malloc and the kernel heap share them.

**Descriptors and pipes** (`descriptors.dfy`, `file_calls.dfy`, `pipe_ring.dfy`, `pipes.dfy`). Reference counts over
the slots of all tasks; the system calls on descriptors; the ring with its head, tail and count; and the
interleavings of readers, writers and closers.

**Buffered stdio and path resolution** (`stdio.dfy`, `resolve_path.dfy`).

`common.dfy`, `bytes.dfy` and `fat_const.dfy` hold what they share.

## What the proofs brought to light

Each of these is a lemma or a clause, with the exact condition where there is one.

- A name whose short form begins with the byte 0xE5 can be added to a directory and is never found again
  (`AddThenFind`, `InvisibleName`). Its chain is lost (`HiddenFile` in `FatRun`), and if it has a long name, that
  stays as an orphan (`AddKeepsTidy`).
- A name without small letters or blanks that has more than 8.3 bytes, but no more than 12, is cut without a long name: two
  such names can be one to every lookup (`CutNamesClash`). The short names of two names are equal if and only if their
  cut and upper-cased stems and extensions are (`SameShortForm`).
- The character behind the tilde of a generated short name is a digit if and only if the sum of the name's signed
  bytes is not negative or a multiple of nine (`GeneratedForm`).
- An entry put right behind an orphaned long name is scanned with the orphan's text in the buffer, because nothing
  clears the buffer when a long name begins. It is found under its own name if and only if its checksum differs from
  the orphan's or, when it has a long name itself, no text of the orphan shows behind it (`BehindOrphan`,
  `OrphanHides`, for names as in `SuchNames`). Everywhere else the orphan does no harm.
- A write through a VFS node whose recorded length is stale cuts the file: it is a positioned write if and only
  if the length will do (`RightLength`, `StaleNodeCuts`).
- A write under a name that exists adds a second entry, and the name then resolves to whichever stands first
  (`WroteAgain`). So does a write through a node that records length 0 for an existing file (`VfsWrite`).
- A write or a create_dir that meets a full directory leaves its clusters allocated with no entry for them; a
  write does not even report it (`WriteFile`, `LostFile` and `LostDirectory` in `FatRun`).
- A new directory shows old entries behind its first unused slot unless the rest of its cluster never held any,
  because only its first sector is cleared (`NewDirWellFormed`, `NewDirJoins`).
- When the directory part of an argument does not exist, the file is read, written or deleted in the working
  directory (`Target` in `FatFileSystem`). A copy resolves a relative destination from the directory of the
  source (`CopyFile`).
- 0xFFFF stands for "no free cluster" and would also be the number of cluster 65535 (`FindFreeCluster`).
- `mem_free` leaves the rover on a swallowed block in exactly one situation (`RoverSurvives`, `RoverLost`).
- A request of 2^31 bytes and more, and no other, reaches the system call as a negative increment: nothing is
  mapped, and the break moves or the call refuses (`HugeRequestMapsNothing`).
- `write` is right for all data if and only if no bytes are left unread (`WriteNeedsEmptyBuffer`); a failed
  `lseek` still moves the position (`Lseek`).
- `resolve_path` forgets components past the 128th, which shows only in buffers of more than 256 bytes
  (`CapShowsInLargeBuffer`).
- `pmm_alloc_block` never gives out the last `maxBlocks % 32` frames (`AllocBlock`).
- A segment of a program loses bytes to a later one on the same page; it is loaded if and only if no later
  segment has another byte there (`LoadedIffKept`, `SharedPageLost`). A program that lies where the kernel has page
  tables changes the kernel's own view (`KernelSees`).
- A page mapped for programs behind a table that was made without the flag stays closed to them (`MappedRights`).
- A handler of its own does not save a task from the six signals that end it by default; only ignoring them does
  (`Verdict`).
- No function of the source changes `signal_mask`; it is empty in every run.

## Model

| member | source | states |
|---|---|---|
| FatNames.StrCaseCmp | src/kernel/fs/fat_16/fat16.c:33-41 | the loop calls two C strings equal if and only if they have the same length and each two bytes are the same or one letter's two cases |
| FatNames.GenerateShortName | src/kernel/fs/fat_16/fat16.c:81-106 | the loops leave the generated short name: the kept characters of the stem, the tilde, the character for the sum and the extension |
| FatNames.GeneratedForm | src/kernel/fs/fat_16/fat16.c:81-106 | at most six characters of the name, none small, a blank or one of those dropped, a tilde, and exactly when what follows is a digit |
| FatShortNames.RoundTrip83 | src/kernel/fs/fat_16/fat16.c:43-71 | the 11 bytes of a name of at most 8.3 bytes read back as the name in capitals, its stem and its extension apart |
| FatShortNames.SameShortForm | src/kernel/fs/fat_16/fat16.c:43-71 | any two names have the same 11 bytes if and only if their stems, cut to 8 bytes, and their extensions, cut to 3, are the same in capitals but for spaces at the end |
| FatShortNames.AnswersByCase | src/kernel/fs/fat_16/fat16.c:43-71 | two names of at most 8.3 bytes have the same 11 bytes if and only if they differ in case alone |
| FatShortNames.NamesToldApart | src/kernel/fs/fat_16/fat16.c:272-286 | two such names that are stored without a long name answer to each other if and only if they are equal |
| FatShortNames.EntryAnswers | src/kernel/fs/fat_16/fat16.c:207-229 | an entry with such a name answers to a target of at most 8.3 bytes if and only if the target in capitals is that name |
| FatShortNames.CutNamesClash | src/kernel/fs/fat_16/fat16.c:272-286 | two names of nine capitals that differ in the last are stored without a long name and cannot be told apart |
| FatShortNames.ChecksumSees | src/kernel/fs/fat_16/fat16.c:73-79 | a change of one byte of a short name always changes the checksum |
| FatNames.LongNameRoundTrip | src/kernel/fs/fat_16/fat16.c:108-143 | every name of 1 to 255 bytes, cut into slots and gathered again, comes back, also when no slot holds a terminator |
| FatDirIo.ScanDir | src/kernel/fs/fat_16/fat16.c:195-270 | the scan over sectors and slots returns what the lookup over the whole directory returns, for each kind of entry sought |
| FatDirIo.FindRoom | src/kernel/fs/fat_16/fat16.c:287-319 | the search returns the first run of enough free slots, also across sectors, and fails only if there is none |
| FatDirWrite.AddDirEntry | src/kernel/fs/fat_16/fat16.c:272-353 | on disk, exactly the slots of the new entry change, at the first fit; without room nothing changes and the call fails |
| FatDirWrite.MarkEntriesDeleted | src/kernel/fs/fat_16/fat16.c:145-162 | exactly the slots from the first long-name slot to the short entry get 0xE5 as first byte, across sectors |
| FatDirTheorems.AddThenFind | src/kernel/fs/fat_16/fat16.c:195-353 | after adding a name nothing matched, the scan finds it if and only if its short name does not begin with 0xE5, and then it finds exactly the added cluster, size and attributes |
| FatDirTheorems.InvisibleName | src/kernel/fs/fat_16/fat16.c:81-106 | there is a name that is legal and whose short name begins with 0xE5 |
| FatDirTheorems.LookupAfterAdd | src/kernel/fs/fat_16/fat16.c:272-353 | every lookup the new entry does not match is unchanged; one that it matches and that found nothing before finds it |
| FatDirTheorems.AddAgain | src/kernel/fs/fat_16/fat16.c:272-353 | a second entry for a name that resolves already is found if it stands before the first one; otherwise the first one still is |
| FatDirTheorems.AddKeepsWellFormed | src/kernel/fs/fat_16/fat16.c:321-351 | an addition at a first fit with no orphan right before it keeps the directory well formed: nothing after the first never-used slot, and every long-name slot fits the buffer and leads, with one checksum, to its entry or to a free slot |
| FatDirTheorems.AddKeepsTidy | src/kernel/fs/fat_16/fat16.c:321-351 | an addition leaves every long name with its entry if and only if the new entry is visible or has no long name |
| FatOrphans.BehindOrphan | src/kernel/fs/fat_16/fat16.c:195-353 | a visible entry added at the first fit, also right behind an orphaned long name, is found under its name if and only if, without a long name of its own, what the orphan left is empty, has another checksum or is the same name, or, with one, its length is no multiple of 13 or the orphan's text does not reach past it |
| FatOrphans.OrphanHides | src/kernel/fs/fat_16/fat16.c:195-353 | in an empty directory, an invisible name of more than 13 bytes followed by any visible name of 13 bytes: the second is not found |
| FatHits.FirstHit | src/kernel/fs/fat_16/fat16.c:195-270 | of all entries that a name answers to, a lookup finds the first, and nothing if there is none |
| FatHits.HitsAfterAdd | src/kernel/fs/fat_16/fat16.c:272-353 | an addition puts exactly the new entry, at its place, into the list of each name it answers to if it is visible, and changes no other list |
| FatHits.HitsAfterDelete | src/kernel/fs/fat_16/fat16.c:145-162 | deleting an entry takes exactly that one out of the list of every name |
| FatDirTheorems.AddKeepsUnique | src/kernel/fs/fat_16/fat16.c:272-353 | an addition keeps every name unique that the new entry does not match |
| FatDirTheorems.LookupAfterDelete | src/kernel/fs/fat_16/fat16.c:145-162 | deleting the entry at a hit leaves every lookup that did not resolve to it unchanged; one that did goes on behind it |
| FatDirTheorems.DeleteKeepsUnique | src/kernel/fs/fat_16/fat16.c:145-162 | a deletion keeps every other unique name unique |
| FatDirTheorems.AddThenDelete | src/kernel/fs/fat_16/fat16.c:145-353 | adding an entry and deleting it gives every lookup the answer it had before |
| FatDisk.Volume.SetFatEntry | src/kernel/fs/fat_16/fat16.c:172-180 | exactly one entry changes, in both copies of the FAT, and nothing else on the disk |
| FatDisk.Volume.FindFreeCluster | src/kernel/fs/fat_16/fat16.c:182-193 | the result is the lowest free cluster from 2 on, or 0xFFFF when none below that is free |
| FatFiles.WriteChain | src/kernel/fs/fat_16/fat16.c:800-822 | the data end up in a freshly linked chain of exactly the clusters needed, all of them free before; every other FAT entry, cluster and directory is untouched |
| FatFiles.NeededIsLeast | src/kernel/fs/fat_16/fat16.c:800-822 | n clusters hold the data if and only if n is at least the number of clusters linked |
| FatFiles.ReadChain | src/kernel/fs/fat_16/fat16.c:734-776 | for a chain that holds the data, a read of n bytes at any offset returns data[offset..min(offset+n, size)] |
| FatFiles.FreeChain | src/kernel/fs/fat_16/fat16.c:901-906 | the loop ends on every FAT, also a cyclic one; it only frees; on a chain it frees exactly that chain |
| FatChain.WriteThenDelete | src/kernel/fs/fat_16/fat16.c:800-906 | allocating a chain and freeing it restores the FAT |
| FatChain.AllocKeepsChain | src/kernel/fs/fat_16/fat16.c:800-822 | every chain survives the allocation of free clusters and is disjoint from them |
| FatChain.FreeKeepsChain | src/kernel/fs/fat_16/fat16.c:901-906 | every chain disjoint from a freed one survives |
| FatChain.ChainUnique | src/kernel/fs/fat_16/fat16.c:164-170 | two chains with the same first cluster are the same chain |
| FatVolumeIo.WriteFile | src/kernel/fs/fat_16/fat16.c:782-829 | the data are in a new chain of exactly the clusters needed; either an entry for it is added, or the directory has no room and nothing but the chain has changed |
| FatVolumeIo.ReadFile | src/kernel/fs/fat_16/fat16.c:710-780 | a stored file reads as its bytes from the offset on; a missing name and a directory read as nothing |
| FatVolumeIo.DeleteFile | src/kernel/fs/fat_16/fat16.c:831-915 | the file the name leads to loses its chain and its slots; when there is none, nothing changes |
| FatVolume.WroteStores | src/kernel/fs/fat_16/fat16.c:782-829 | after a write under a visible name, every name that answers to it and led nowhere resolves to an entry whose chain holds exactly the data |
| FatDirectory.RoomIsNeeded | src/kernel/fs/fat_16/fat16.c:800-822 | data can be stored in new clusters only if as many were free, which is what the calls that write assume |
| FatVolume.WroteKeeps | src/kernel/fs/fat_16/fat16.c:782-829 | a write leaves the entry, the chain and the bytes of every file of another name in its directory as they were |
| FatVolume.WroteAgain | src/kernel/fs/fat_16/fat16.c:782-829 | after a write, every name that answers to it and had a file resolves to the new bytes if the new entry stands before the old one, and to the old bytes if not |
| FatVolume.DeletedKeeps | src/kernel/fs/fat_16/fat16.c:831-915 | a deletion leaves the entry, the chain and the bytes of every other file of its directory as they were |
| FatDirectory.WriteRefines | src/kernel/fs/fat_16/fat16.c:782-829 | a directory that holds a map of files holds the map with exactly that file added |
| FatDirectory.DeleteRefines | src/kernel/fs/fat_16/fat16.c:831-915 | a directory that holds a map of files holds the map without that file, and the name is fresh again |
| FatVolumeIo.VfsWrite | src/kernel/fs/fat_16/fat16_vfs.c:16-44 | for every recorded length of the node, what the call returns and records and what the directory then holds: the file with the old contents overlaid at the offset, if and only if the length will do; with length 0 on record for an existing file, a second entry, which the name leads to if it stands first; every other file of the directory is unchanged; the whole change of the volume is a deletion of the file the node knows of and a write; without memory nothing changes |
| Bytes.OverlayMeans | src/kernel/fs/fat_16/fat16_vfs.c:16-44 | after a positioned write the bytes are at the offset, those before and behind are as they were, and a gap is zeros |
| FatVolumeIo.RightLength | src/kernel/fs/fat_16/fat16_vfs.c:16-44 | read, overlay, delete and rewrite is a positioned write if and only if the node's length is right, or the tail it misses is overwritten |
| FatVolumeIo.StaleNodeCuts | src/kernel/fs/fat_16/fat16_vfs.c:16-44 | a one-byte write through a stale node cuts a file of three bytes to one |
| FatOwned.FileChain | src/kernel/fs/fat_16/fat16.c:901-906 | when the entries of all usable directories own their chains, the chain of a file's entry is whole and holds no directory |
| FatOwned.EmptyOwned | src/kernel/fs/fat_16/fat16.c:488-513 | on an empty volume they do |
| FatRun.HappensIsStep | src/kernel/fs/fat_16/fat16.c:782-1040 | every write, copy, deletion and create_dir in such a tree, also one that meets a full directory or writes an invisible entry, is a step of the machine on chains; that a deletion frees a chain its entry owns is part of what is proved |
| FatRun.EventKeepsOwned | src/kernel/fs/fat_16/fat16.c:782-1040 | after it the entries on disk own their chains again, and no cluster in use is without an entry if none was and the event loses none |
| FatRun.RunKeepsChains | src/kernel/fs/fat_16/fat16.c:782-1040 | over every run of these events, in whatever usable directories, every live entry but "." and ".." has a chain of its own, acyclic, end-marked and disjoint from every other, the directories' clusters among them; unless an event lost its chain, every cluster in use is in the chain of an entry on disk |
| FatRun.EntriesShareNothing | src/kernel/fs/fat_16/fat16.c:164-170 | in such a tree two entries on disk have whole chains that share no cluster |
| FatRun.TrackedVolume.WriteFile | src/kernel/fs/fat_16/fat16.c:782-829 | on a volume with equal FAT copies whose entries own their chains, the call leaves such a volume, changed by a write, a write that met a full directory, or one of an invisible name |
| FatRun.TrackedVolume.DeleteFile | src/kernel/fs/fat_16/fat16.c:831-915 | the same for a deletion of any name in a usable directory, with nothing asked of the file; it removes exactly the chain of the entry the name leads to |
| FatRun.TrackedVolume.MakeDir | src/kernel/fs/fat_16/fat16.c:953-983 | the same for create_dir, also on a full disk |
| FatRun.TrackedVolume.VfsWrite | src/kernel/fs/fat_16/fat16_vfs.c:16-44 | the same for a write through a node, which is at most a deletion and then a write |
| FatTreeRun.FileKept | src/kernel/fs/fat_16/fat16.c:782-1040 | whatever happens in its own or another directory: a file whose entry the event does not remove keeps entry, chain and bytes |
| FatTreeRun.FileStays | src/kernel/fs/fat_16/fat16.c:782-1040 | if the event adds no entry that answers to its name either, the name leads to that file and to nothing else |
| FatTreeRun.NameLeads | src/kernel/fs/fat_16/fat16.c:195-270 | a name leads to the first of its entries, and if a file is known there, to its bytes |
| FatTreeRun.TreeRun | src/kernel/fs/fat_16/fat16.c:782-1040 | over every run of writes, copies, deletions, rewrites, create_dirs and losses in whatever usable directories, of fresh names or not: the files on disk are exactly those that the events give, each with its chain and the bytes it was written with; and every name in every directory answers to exactly the entries that the events give, in their order |
| FatTreeRun.NodeSparesFile | src/kernel/fs/fat_16/fat16_vfs.c:16-44 | a write through a node of one directory leaves every file of every other directory, its entry, chain and bytes, as it was |
| FatTreeRun.NodeSparesName | src/kernel/fs/fat_16/fat16_vfs.c:16-44 | and every name of every other directory answers to the entries it answered to |
| FatTreeRun.WriteNode | src/kernel/fs/fat_16/fat16_vfs.c:16-44 | on a volume whose entries own their chains, with the files of the whole tree: the call does in its directory what VfsWrite says, leaves the files of every other directory, and leaves such a volume |
| FatTreeRun.WrittenTree | src/kernel/fs/fat_16/fat16_vfs.c:16-44 | unless length 0 was on record for an existing file, the tree then has exactly that one file anew |
| FatPaths.UpLeadsBack | src/kernel/fs/fat_16/fat16.c:571-592 | in a linked tree the ".." entry of the directory a path reaches names the directory the shorter path reaches |
| FatPaths.ReturnHome | src/kernel/fs/fat_16/fat16.c:552-627 | changing to the current path leads to the working directory |
| FatPaths.GoJoins | src/kernel/fs/fat_16/fat16.c:565-627 | a walk over two paths one behind the other is the walk over the second from where the first arrives |
| FatPaths.FromHome | src/kernel/fs/fat_16/fat16.c:552-627 | the walk of a relative argument from the working directory is the walk from the root of the current path and the argument behind it |
| FatChdir.Chdir | src/kernel/fs/fat_16/fat16.c:552-627 | a relative argument succeeds if and only if the walk from the root along the current path, a slash and the argument does, and an absolute one if and only if the walk along itself does; a single name leads to that subdirectory of the working directory and is appended to the path, ".." to the directory above and "." nowhere; current_path then walks from the root to current_dir_cluster; a failed call changes neither |
| FatFileSystem.FileSystem.ReadFile | src/kernel/fs/fat_16/fat16.c:710-780 | a read through a path returns what the walk leads to, with the working directory back where it was |
| FatFileSystem.FileSystem.WriteFile | src/kernel/fs/fat_16/fat16.c:782-829 | a write through a path is the write in the directory it leads to; current_dir_cluster and current_path are what they were, and the tree is usable |
| FatFileSystem.FileSystem.DeleteFile | src/kernel/fs/fat_16/fat16.c:831-915 | the same for a deletion, also of a missing name and of the name of a directory |
| FatFileSystem.ClosedWalkKnown | src/kernel/fs/fat_16/fat16.c:552-627 | when every subdirectory of the usable directories is usable, so is every directory on the way of any argument |
| FatFileSystem.TargetFromHome | src/kernel/fs/fat_16/fat16.c:718-730 | the directory in which a call works: for a relative argument the one that the current path and the directory part behind it lead to, for a bare name, and when the walk fails, the working directory |
| FatFileSystem.PartsOf | src/kernel/fs/fat_16/fat16.c:718-730 | the base name has no slash, and the names of the argument are those of the directory part and then it |
| FatMkdir.CreateDir | src/kernel/fs/fat_16/fat16.c:917-987 | the outcome in the parent directory, also on a full disk; current_dir_cluster and current_path are what they were, whether it succeeds or fails |
| FatMkdir.AbsoluteFromHome | src/kernel/fs/fat_16/fat16.c:923-930 | the absolute path made of an argument has the names of the current path, for a relative one, and then those of the argument |
| FatMkdir.MakeDir | src/kernel/fs/fat_16/fat16.c:953-983 | success adds the entry and a cluster with "." and ".."; a failure found the name taken or the disk full and changed nothing, or found the directory full and lost the cluster |
| FatMkdir.NewDirWellFormed | src/kernel/fs/fat_16/fat16.c:963-978 | the new directory is well formed if and only if the rest of its cluster never held an entry |
| FatMkdir.NewDirJoins | src/kernel/fs/fat_16/fat16.c:953-983 | the tree with the new directory is closed and linked, and all of it usable under the same condition |
| FatCopy.CopyFile | src/kernel/fs/fat_16/fat16.c:1002-1040 | it succeeds if and only if the source is a stored, non-empty file, memory suffices and both directories can be entered; then the destination gets the same bytes; current_dir_cluster and current_path are what they were in every case |
| FatCopy.WalkPartFromHome | src/kernel/fs/fat_16/fat16.c:1008-1034 | the directory part of an argument of a copy, walked from a working directory, is walked from the root behind that directory's path |
| FatFormat.ProtectFatChain | src/kernel/fs/fat_16/fat16.c:381-388 | exactly the clusters of the chain are flagged in addition |
| FatFormat.ProtectDirectoryTree | src/kernel/fs/fat_16/fat16.c:390-413 | exactly the clusters claimed by the tree under the directory are flagged in addition |
| FatFormatDrive.FormatDrive | src/kernel/fs/fat_16/fat16.c:415-522 | every cluster under /system keeps its FAT entry, every other one is free, in both copies; no cluster is written; the root leads to /system and nowhere else; and the tree under it is the one that was there |
| FatFormatDrive.SystemSurvives | src/kernel/fs/fat_16/fat16.c:488-505 | a tree whose clusters a format keeps is the same tree afterwards, from each directory entry down to each file chain |
| TaskKernel.FindNextReady | src/kernel/arch/x86/task/task.c:83-113 | the single pass that picks while it ages returns the ready task of highest priority in the aged table, the first of several, or 0 if none is ready |
| TaskKernel.Kernel.Yield | src/kernel/arch/x86/task/task.c:394-429 | the new state is the yield step of the machine |
| TaskKernel.Kernel.ScheduleTick | src/kernel/arch/x86/task/task.c:360-392 | the sleepers due are woken, the current task is charged, and a yield follows exactly when the task is dead, or still runs and has asked for it or spent its quantum; `SliceSpent` and `QuantumEnds` say when that is |
| TaskKernel.Kernel.ExitWithStatus | src/kernel/arch/x86/task/task.c:506-549 | the new state is the exit step of the machine |
| TaskKernel.Kernel.Wait | src/kernel/arch/x86/task/task.c:553-578 | the caller parks exactly when the target is listed and alive; the new state is the wait step |
| TaskKernel.Kernel.CheckSignals | src/kernel/arch/x86/task/task.c:646-672 | signals are delivered in order until one kills the task; the new state is that step of the machine |
| TaskKernel.Kernel.SetSignalHandler | src/kernel/arch/x86/task/task.c:704-713 | the handler is recorded and the old one returned for signals in range other than SIGKILL; any other signal is refused and nothing changes |
| TaskKernel.Kernel.Sweep | src/kernel/arch/x86/task/task.c:115-145 | the reaper's loop leaves the reap step of the machine |
| TaskInvariant.StepKeepsInv | src/kernel/arch/x86/task/task.c:147-713 | every locked section keeps the invariant of the scheduler |
| TaskInvariant.ReachableStates | src/kernel/arch/x86/task/task.c:394-429 | in every state a run from boot reaches, every waiter names a listed live task, at most one task runs and it is the current one, with needs_cleanup clear nothing is left to reap, and the idle task is listed and ready or running |
| TaskInvariant.DeadIsFinal | src/kernel/arch/x86/task/task.c:394-429 | over every run a dead task stays dead until it is unlinked, keeps its status, and its pid is not listed again |
| TaskInvariant.WaitsUntilExit | src/kernel/arch/x86/task/task.c:506-578 | over every run, a task that waits on another goes on waiting, on a listed task that has not exited, until that one exits or is killed, which makes it ready with the status, or until it gets a signal itself |
| TaskInvariant.YieldLeavesParked | src/kernel/arch/x86/task/task.c:394-429 | a task that has parked itself does not go on executing: the pass dispatches another one, if only the idle task |
| TaskInvariant.SweepIsExact | src/kernel/arch/x86/task/task.c:115-145 | one sweep unlinks exactly the tasks reapable when it began, never the current one, changes no other, and leaves nothing to reap |
| TaskFairness.BoundedWaiting | src/kernel/arch/x86/task/task.c:83-113 | in every run without priority changes, a task queued at dynamic priority d is dispatched within 50*(4-d)+N passes, N being the tasks listed once it has the top priority |
| TaskFairness.AheadShrinks | src/kernel/arch/x86/task/task.c:83-113 | once a waiting task has the top priority, every pass spends one of the tasks ahead of it, whatever tasks wake, exit or appear |
| TaskTicks.SliceSpent | src/kernel/arch/x86/task/task.c:360-392 | over every run, a task that runs with q ticks left and goes on, whatever other tasks do, has q - k left after k < q ticks, and none of them yields |
| TaskTicks.QuantumEnds | src/kernel/arch/x86/task/task.c:360-392 | the q-th tick yields, and leaves it ready |
| TaskTicks.PassDispatches | src/kernel/arch/x86/task/task.c:394-429 | a pass with a queued task that beats the current one dispatches a task that was ready and that the queued one does not beat, with the quantum of its base priority (2, 5, 10, 20 or 30 ticks), and leaves the current one ready |
| TaskTicks.BoundedWaitingInTicks | src/kernel/arch/x86/task/task.c:360-429 | in every run without priority changes in which task_yield follows where the source calls it, with at most N tasks listed, a task queued at dynamic priority d is dispatched within 30*(50*(4-d)+N) ticks; every run from boot meets the condition on the current task's slice (`BootIsSteady`) |
| TaskTicks.SleeperWakes | src/kernel/arch/x86/task/task.c:69-81 | a task that goes to sleep for n ticks sleeps, unless woken or sent a signal, until the first tick at that time or later, and is then ready |
| TaskTicks.WokenIsQueued | src/kernel/arch/x86/task/task.c:441-497 | each way to wake a parked task puts it where bounded waiting applies |
| TaskTicks.CreatedIsQueued | src/kernel/arch/x86/task/task.c:272-358 | so does its creation, at priority 2, with a slice of ten ticks and a pid nobody had, and no other task changes |
| TaskTicks.KillIsSure | src/kernel/arch/x86/task/task.c:616-672 | in every run from boot, whatever handlers are set: a live user task sent SIGKILL is ended when it next checks its signals, with status 137 or that of a lower signal that ends it |
| TaskTicks.Verdict | src/kernel/arch/x86/task/task.c:616-672 | what a single signal does to the running task, for every signal and handler: which end it, with which status, and which have no effect |
| TaskTicks.WaitCollects | src/kernel/arch/x86/task/task.c:553-578 | a wait for a task that has ended takes its status, parks nobody, and lets the sweep have it |
| TaskTicks.StatusWaits | src/kernel/arch/x86/task/task.c:58-67 | over every run, a task that has ended stays listed with its status as long as its parent lives and nobody waits for it |
| BlockList.FreeRunInOneBlock | src/usr/libs/stdlib.c:214-239 | with no two free neighbours, every run of free bytes lies in one free block |
| BlockLinks.SplitBlock | src/usr/libs/stdlib.c:152-163 | the linked headers in memory represent the list with that block cut in two; no live byte changes |
| BlockLinks.MergeNext | src/usr/libs/stdlib.c:224-229 | the linked headers represent the list with the two blocks joined; no live byte changes |
| BlockHeap.Release | src/usr/libs/stdlib.c:214-239 | afterwards the blocks tile the heap, no two free ones are neighbours, exactly that block is no longer live, and the live bytes are as before |
| UserMalloc.MallocStep | src/usr/libs/stdlib.c:137-212 | the heap stays sound; the result is a new block of at least the size, apart from every live one, whose bytes are as before; it is null, with nothing allocated, if and only if the size is 0 or no free block fits and the break cannot move |
| UserMalloc.SbrkOnlyWhenNeeded | src/usr/libs/stdlib.c:137-212 | if malloc moved the break, no run of free bytes could have held header and request |
| UserMalloc.ReallocStep | src/usr/libs/stdlib.c:255-303 | the pointer stays if and only if the block is large enough or a free block behind makes it so; a large enough block is left as it is; null if and only if neither holds, no free block fits and the break cannot move, and then the old block is untouched; otherwise the first min(old, new) bytes are in the block returned; size 0 frees; every other live block is as before |
| UserMalloc.Allocator.Malloc | src/usr/libs/stdlib.c:137-212 | the same on the object, over every history of calls |
| UserMalloc.Allocator.Free | src/usr/libs/stdlib.c:214-239 | exactly the block given is no longer live, every other keeps its bytes, the break does not move, null does nothing |
| UserMalloc.Allocator.Realloc | src/usr/libs/stdlib.c:255-303 | the same for realloc, over every history of calls |
| UserMalloc.Allocator.Calloc | src/usr/libs/stdlib.c:241-253 | null if and only if the product is beyond 32 bits, with nothing changed then, or is 0, or there is no memory; otherwise the block holds zeros |
| UserHeap.Sbrk | src/kernel/syscall/syscall.c:862-917 | growing maps one frame for each page the break passes, in order, or fails without moving the break; the break moves as the specification says |
| UserHeap.HugeRequestMapsNothing | src/kernel/syscall/syscall.c:877-915 | the increment is negative if and only if the request is 2^31 or more; below that the call refuses if and only if the break would pass the top or frames are short, and otherwise moves it up over mapped pages and answers the old one; from there on it moves up over unmapped pages, moves down, or stays, as the sum falls |
| KernelHeap.Search | src/kernel/mem/heap/heap.c:67-113 | the wrapped search from a listed rover returns the first fitting block in its order and fails only if no block fits |
| KernelHeap.PagesSuffice | src/kernel/mem/heap/heap.c:115-118 | the size asked of heap_expand always makes a block that fits |
| KernelHeap.MemAlloc | src/kernel/mem/heap/heap.c:65-119 | the heap grows exactly when no block fits, once, and the block returned is apart from every live one |
| KernelHeap.MemFree | src/kernel/mem/heap/heap.c:128-184 | exactly that block is no longer live, the neighbours are joined, live bytes are as before; freeing twice changes nothing |
| KernelHeap.RoverSurvives | src/kernel/mem/heap/heap.c:150-181 | after a free the rover is a listed block if and only if not: the block before is free and the rover stood on it, on the freed block or on a free block behind |
| KernelHeap.RoverLost | src/kernel/mem/heap/heap.c:165-181 | a heap of three blocks in which the rover is lost |
| Stdio.Stream.Read | src/usr/libs/stdio.c:55-99 | a read returns the bytes and leaves the file that a read of the unbuffered file does |
| Stdio.Stream.Write | src/usr/libs/stdio.c:101-131 | the same for a write, with no bytes left unread |
| Stdio.Stream.Lseek | src/usr/libs/stdio.c:133-145 | a seek that succeeds is the seek on the file, which `SeekFromStart`, `SeekFromEnd` and `SeekFromHere` fix; one that fails moves the position on by the bytes that were unread |
| Stdio.SeekFromStart | src/kernel/syscall/syscall.c:605-640 | after a seek to k from the start a read of n bytes returns those from k on, up to the end |
| Stdio.SeekFromEnd | src/kernel/syscall/syscall.c:605-640 | after a seek of n back from the end a read of n bytes returns the last n; further back than the start the seek is refused and moves nothing |
| Stdio.SeekFromHere | src/kernel/syscall/syscall.c:605-640 | a seek of 0 from here answers the position, and two seeks from here are one by the sum; before the start the seek is refused |
| Stdio.WriteThenRead | src/kernel/syscall/syscall.c:322-356 | what is written is what a read gets after seeking back by its length |
| Stdio.Stream.Fgetc | src/usr/libs/stdio.c:187-208 | the next byte, or nothing at the end of the file |
| Stdio.Stream.Fgets | src/usr/libs/stdio.c:214-230 | the line the unbuffered file gives |
| Stdio.GetsIsLine | src/usr/libs/stdio.c:214-230 | such a line is a read of at most n-1 bytes, of which only the last can be a newline, and stops short only at a newline or the end |
| Stdio.WriteNeedsEmptyBuffer | src/usr/libs/stdio.c:101-131 | a write does what it should for all data if and only if no bytes are left unread |
| Stdio.Session | src/usr/libs/stdio.c:21-230 | any permitted mix of calls gives the answers of the unbuffered file, and after a flush the kernel holds its contents |
| Descriptors.StepKeeps | src/kernel/fs/vfs/vfs.c:88-146 | every retain, release, open, pipe and slot step keeps the invariant |
| Descriptors.ReachableInv | src/kernel/fs/vfs/vfs.c:88-109 | in every reachable state the count of a node that can go is the number of slots and handles naming it, nothing names a freed node, and close actions run once |
| Descriptors.ClosedByLastHolder | src/kernel/fs/vfs/vfs.c:97-109 | a release closes a node if and only if it is not persistent and nothing names it any more |
| Descriptors.RingLives | src/kernel/fs/pipe/pipe.c:76-104 | a side of a ring counts as closed if and only if nothing names its end, and a ring in memory has an open side |
| FileCalls.Files.SysOpen | src/kernel/syscall/syscall.c:202-258 | the lowest free slot names the node, or no reference is left behind; when it fails |
| FileCalls.Files.SysClose | src/kernel/syscall/syscall.c:260-283 | exactly the slot is emptied, or nothing changes |
| FileCalls.Files.SysCreate | src/kernel/syscall/syscall.c:447-495 | a slot names the new file's node, or no reference is left behind |
| FileCalls.Files.SysDup | src/kernel/syscall/syscall.c:692-727 | the lowest free slot names the same node; otherwise nothing changes |
| FileCalls.Files.SysDup2 | src/kernel/syscall/syscall.c:729-768 | exactly the slot asked for names the same node, its former node released; equal descriptors change nothing |
| FileCalls.Files.SysPipe | src/kernel/syscall/syscall.c:953-1007 | two slots, the two lowest not in use, name the ends of a new ring; it fails if and only if memory or two such slots are lacking, and then slots and rings are as before |
| FileCalls.Files.TaskExit | src/kernel/arch/x86/task/task.c:530-539 | exactly the slots of the task are emptied |
| FileCalls.Files.HandOver | src/kernel/progs/elf/elf.c:204-225 | exactly that slot names the stream, what it named before is released, and the shell's hold stays |
| PipeRing.Ring.ReadSection | src/kernel/fs/pipe/pipe.c:9-44 | one locked section of a read is a turn of the ring |
| PipeRing.Ring.WriteSection | src/kernel/fs/pipe/pipe.c:46-74 | one locked section of a write is a turn of the ring |
| PipeRing.PutKeeps | src/kernel/fs/pipe/pipe.c:62-66 | a byte put in is the last of the queue the array shows, and delivered + queue == accepted is kept |
| PipeRing.TakeKeeps | src/kernel/fs/pipe/pipe.c:20-24 | the byte taken out is the first of the queue, and delivered + queue == accepted is kept |
| PipeRing.NothingMeansEnd | src/kernel/fs/pipe/pipe.c:9-44 | a read of positive size returns nothing if and only if the write side is closed and the ring is empty |
| PipeRing.WriterGoesOn | src/kernel/fs/pipe/pipe.c:46-74 | a writer's call ends if and only if all is sent or nobody reads; until then it puts in the next byte if there is room and waits with the ring full |
| PipeRing.ReaderGoesOn | src/kernel/fs/pipe/pipe.c:9-44 | a reader's call ends if and only if it has all it asked for, or the ring is empty and it has something or nobody writes; until then it takes the oldest byte or waits |
| Pipes.ReachableInv | src/kernel/fs/pipe/pipe.c:9-104 | for every interleaving of readers, writers and closers each ring is a sound circular buffer, and every call in progress is on a ring in memory |
| Pipes.RunExtends | src/kernel/fs/pipe/pipe.c:9-104 | over every run what was accepted and delivered only grows, and nothing is accepted once the write side is closed |
| Pipes.EmptyReadIsEnd | src/kernel/fs/pipe/pipe.c:9-44 | a read of positive size that returns nothing: no slot or handle names the write end, every byte accepted was delivered, and none is accepted in whatever follows |
| Pipes.LoneWriter | src/kernel/fs/pipe/pipe.c:46-74 | over every run in which one task writes to a ring, the ring accepts exactly the bytes of its call, in order, each once |
| Pipes.LoneReader | src/kernel/fs/pipe/pipe.c:9-44 | and a lone reader gets exactly the bytes that the ring delivers |
| Pipes.ShortWriteMeansClosed | src/kernel/fs/pipe/pipe.c:46-74 | a write ends short only when nothing names the read end any more |
| ResolvePath.Resolve | src/kernel/lib/path/resolve_path.c:4-81 | for buffers up to 256 bytes, exactly when it returns true, and that the output then is the full fold of the names in normal form, terminated inside the buffer |
| ResolvePath.SmallBufferIsFold | src/kernel/lib/path/resolve_path.c:40-79 | an answer that fits 256 bytes has never filled the 128 tokens, and is the full fold |
| ResolvePath.ResolveTwice | src/kernel/lib/path/resolve_path.c:4-81 | resolving an answer again, from any directory, gives it back |
| ResolvePath.WholeTokens | src/kernel/lib/path/resolve_path.c:15-38 | an absolute input is taken by itself, any other behind the working directory |
| ResolvePath.OneName | src/kernel/lib/path/resolve_path.c:40-57 | from a path in normal form a name leads to that name in it, ".." to the directory above, or fails at the root, and "." nowhere |
| ResolvePath.CapShowsInLargeBuffer | src/kernel/lib/path/resolve_path.c:40-57 | 128 names and a ".." resolve, in a larger buffer, to all 128 names |
| Pmm.Bitmap.AllocBlock | src/kernel/mem/physical_memory_manager/pmm.c:111-133 | the lowest free frame, which is then the only one no longer free; it fails if and only if no frame of a whole bitmap word is free |
| Pmm.Bitmap.AllocContiguous | src/kernel/mem/physical_memory_manager/pmm.c:135-154 | the first run of that many free frames; it fails only if there is none |
| Pmm.Bitmap.FreeBlock | src/kernel/mem/physical_memory_manager/pmm.c:156-175 | exactly that frame is free; an address that is no frame's changes nothing |
| Vmm.Memory.CreateDirectory | src/kernel/mem/virtual_memory_manager/vmm.c:62-77 | the new directory maps every page as the kernel's does, and maps itself behind its last entry |
| Vmm.Memory.MapPage | src/kernel/mem/virtual_memory_manager/vmm.c:90-146 | the flat map changes at exactly that page, and the entries written carry the flags given (`MappedRights`); and exactly when the call does nothing |
| Vmm.MappedRights | src/kernel/mem/virtual_memory_manager/vmm.c:90-146 | a program may write to a page just mapped if and only if the flags say so and, where a table was there before, its entry says so too |
| Vmm.Memory.UnmapPage | src/kernel/mem/virtual_memory_manager/vmm.c:165-195 | the flat map loses exactly that page and its frame is free, or nothing changes |
| Vmm.KernelSees | src/kernel/mem/virtual_memory_manager/vmm.c:62-146 | mapping a page in a process leaves the kernel's translation alone if and only if the kernel has no table there or maps that frame already |
| Elf.LoadProgram | src/kernel/progs/elf/elf.c:76-151 | when it succeeds, every page of segments, stack and thread-local storage has the bytes of the last segment that covers it and every other page maps as in the kernel's directory, though failed mappings go unnoticed; every page it mapped outside the kernel's tables is open to the program; failure means that no frame is left; old frames keep their contents and, for programs outside the kernel's tables, the kernel's view is as before in either case |
| Elf.OpenPage | src/kernel/progs/elf/elf.c:93-111 | a page mapped in the new directory, outside the kernel's tables, may be written to by the program |
| Elf.LoadedIffKept | src/kernel/progs/elf/elf.c:76-127 | each byte of a segment, read through the new tables, is the file's byte or the zero behind it, if and only if no later segment has another byte on the page |
| Elf.ApartIsKept | src/kernel/progs/elf/elf.c:76-127 | a segment that shares no page with a later one meets that condition |
| Elf.SharedPageLost | src/kernel/progs/elf/elf.c:93-110 | of two segments on one page the first is not loaded |

## Left out

- WriteFile: enough free clusters are assumed, without which the data cannot be stored (`RoomIsNeeded`), for the source does not check for a full disk in mid-chain; no orphaned long name stands right before the room for the entry, where `BehindOrphan` has the exact outcome of a lookup; a sector's bytes past the end of the data are arbitrary.
- MakeDir: no orphaned long name stands right before the room for the entry.
- RunKeepsChains: a new directory whose cluster held entries before is not usable, and nothing is said of what happens in it; no entry is added right behind an orphaned long name.
- AddThenDelete: only lookups are compared; the erased slots stay erased.
- ScanDir: a directory is one cluster, which is what create_dir makes; longer chains of directory clusters are not followed.
- ReadChain: offset + n stays below 2^32, as sizes are 32-bit.
- VfsWrite: the node's name is spelled as the name in the map is, and a name that is gone is visible and has room for its entry, which no orphaned long name stands right before; in a directory where every long name has its entry none does (`TidyWillDo`).
- ReadFile: entries whose chain does not hold their size are not covered.
- FormatDrive: the working directory is the root, the geometry is unchanged, directories form a tree and are one cluster each, and /system comes back under that name only.
- CreateDir: the rest of the new cluster is whatever it held before; base names are shorter than 64 bytes, and if the disk is not full a cluster of the data area is free.
- FreeChain: FAT entries point inside the FAT or mark an end.
- MemAlloc: a listed rover is assumed, which mem_free does not keep, and a frame for every page of an expansion.
- MallocStep: sizes stay below 2^31 less headers, where alignment cannot wrap and the increment is positive.
- Sbrk: page tables are not part of it; a page counts as mapped once it has a frame.
- BoundedWaiting: task_set_priority is excluded, and N is taken when the top priority is reached.
- BoundedWaitingInTicks: task_set_priority is excluded, and task_yield follows at once where the source calls it, with no interrupt between.
- SleeperWakes: the tick counter does not wrap.
- ReachableStates: the executing task can stay ready after a yield that finds nobody else, so the claim is that at most one task runs and that it is the current one.
- Session: one descriptor; a write follows a read only after a positioning call, or at the end of the file, as C11 section 7.21.5.3 paragraph 7 has it; seeks to positions that do not exist come only where a write may; kernel calls do not fail for lack of memory.
- SysCreate: the write of one space that comes first is the file system's part.
- Resolve: the source's 512-byte temporary buffer is part of the condition; inputs are free of the byte 0.
- AllocBlock: a word of the bitmap is a run of 32 bits; the test of a full word is the test of its bits.
- MapPage: pages behind the last directory entry, where the directory maps itself, are excluded.
- LoadProgram: the checks of the ELF header, the arguments on the stack and the new task's fields are left out, and frames are reached by their physical addresses, which the identity map covers for the first 8 MB.
- fat16_delete_dir and is_dir_empty, which would repeat the deletion of a file with a check of one sector.
- fat16_list, fat16_get_file_size beyond its use in a copy, the time stamps and the progress callback.
- The mount list, the name hash and the device nodes of vfs.c beyond their reference counts.
- User-pointer checks of the system calls.
- Device drivers, the console, the shell, the network, sound, assembly, context switches and interrupts; a locked section is one atomic step.
- printf and the other formatters, getopt, /proc text and the programs under src/usr/progs.
