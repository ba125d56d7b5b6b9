# xv6: a verified model

This project models the parts of xv6 (with double-indirect files, per-inode tags and the other
extensions of this fork) whose correctness depends on more than one function, and proves what they
are for. Each module says which source file it follows.

* **Log and buffer cache** (`DiskLog`, `BufferCache`, `LogSystem`). The disk is a sequence of
  sectors; every sector write appends the new disk to a ghost trail, so a crash is any disk of the
  trail. The buffers are a doubly linked ring with busy, valid and dirty flags. A transaction is
  atomic across a crash at any write, and across any number of further crashes during recovery.
* **Files** (`Sectors`, `FileIndex`, `FileBytes`, `Capacity`, `Truncation`, `Inodes`, `Mkfs`,
  `FileSystem`). The block allocator, the three-level index, `readi`, `writei`, `itrunc`,
  `filewrite`, and the freeing and reuse of inodes, over the blocks a transaction sees, from the disk
  that `mkfs` lays out on. A file is a flat byte sequence; every set bit of the free map is owned by
  exactly one place. `Capacity` says from the disk before a write which blocks it takes and how many
  sectors it logs.
* **Crashes** (`CrashSafety`). The two layers together: a crash at any sector write during
  `filewrite`, and any number of crashes while recovering from it, leave the file with some whole
  chunks written, or all of them, and every other file as it was. How many chunks a call completes
  is decided by the disk before it.
* **Directories and tags** (`Links`, `LinkOps`, `Tags`). Link counts over create, link, unlink and
  the freeing of inodes; the 40-byte-slot tag table as a finite map.
* **Heap** (`FreeList`, `Heap`). The K&R allocator: an address-ordered circular list.
* **Processes** (`SleepWakeup`, `Progress`, `ExitWait`, `Kills`, `Pipe`). `SleepWakeup` is a state machine
  whose steps are the individual lock, state and switch operations of any number of CPUs and processes,
  with a condition per channel that processes wait for and make true; `Progress` says that it is never
  stuck and that a waiting process whose condition is true can always be brought to test it. `ExitWait` is the process table with
  the sections that run under `ptable.lock` and the unlocked writes of `fork` in between; `Kills` is
  about whom `kill` marks in its runs. `Pipe` is the ring buffer with 32-bit counters and its
  sleeping readers and writers.
* **Paging** (`Paging`, `AddressSpace`, `Conservation`, `Vm`). Physical pages of 1024 words, page
  directories and tables inside them, the page free list, and what becomes of every page over any
  run of calls.
* **User programs** (`Grammar`, `Shell`, `ShellSyntax`, `ShellRoundTrip`, `Regex`). The shell's parser with
  its cursor and the in-place NUL termination. `ShellSyntax` is a grammar of the shell's language and
  its meaning, written apart from the parser: `|` binds tighter than `&` and `;`, both to the right. The
  parser accepts exactly its sentences and gives each its meaning. grep's regular expression matcher.

Where the source updates things in place the model does too, in classes and loops, and each method
is proved against a function or relation of the old state. The invariants and theorems are about
those functions.

Some properties one would expect do not hold of the code. The code is modelled as it is, and the
exact condition is proved:

* `balloc` scans the log area as well, which `mkfs` leaves unmarked (`BallocAvoidsLog`,
  `BallocCanTakeLogHeader`).
* `malloc` asks `sbrk` for what a request needs only up to 0x7fff_fff0 bytes: above, the argument is
  zero or negative as an `int`, and `sbrk` reports success without new memory; nearly 4 GB wrap
  already in the number of units (`AsksEnough`, `RequestMet`, `HalfOfMemory`, `NUnitsHoldRequest`,
  `WrappedRequest`). `growproc` takes shrinking to nothing for a failure, after the pages are gone.
* a killed writer returns from a full pipe without waking readers (`StepSleep`,
  `KilledWriterStrandsReader`).
* overwriting a tag counts it twice, and a scan then runs past the slots (`Ftag`, `Search`,
  `OverwriteMiscounts`).
* freeing an inode keeps its tag block, and allocating the inode again forgets it (`ReuseExact`,
  `FreedReuse`, `AllRecorded`).
* a chunk of `filewrite` can trip the log's capacity check when its blocks come from two bitmap
  blocks. Which chunks do is decided by the disk before the call (`FileWrite`, `MadeTrips`,
  `TripsShift`); at the boundary between the single- and double-indirect ranges it takes five blocks,
  and fewer than five free bits in the first bitmap block that has any (`CrossingWrite`,
  `CrossingHappens`).
* `kill` looks at pids and not at states, and `allocproc` leaves the mark of an earlier kill: after
  kill(0) the next child is born killed (`KilledByName`, `NoStrays`, `BornKilled`).
* link counts go wrong in directories that have been removed, and when a `short` overflows
  (`LinkOps.StepKeeps`, `CreateInRemoved`).
* `deallocuvm` skips 4 MB from an unaligned page, and so can miss pages (`SkipIsExact`,
  `SkipMisses`).
* `allocuvm` ignores a missing page for a page table: it then loses a page, and may report success
  with the last page unmapped; `setupkvm` and `copyuvm` lose pages on it (`Allocuvm`, `OnePageLies`,
  `Setupkvm`, `Copyuvm`, `Conserved`).

Conventions: a C `int`, `uint` or `short` is an unbounded integer with its wrap-around written out
where it can matter. A panic is an outcome of the method unless the contract shows that it cannot
happen; a panic for a caller's mistake (releasing a buffer one does not hold) is a precondition.

## Model

| member | source | states |
|---|---|---|
| `DiskLog.CrashDuringRecovery` | log.c:115-122 | a crash after any number of installed blocks, or after the header is cleared, leaves a disk whose recovery gives the same home area as recovery of the original disk |
| `DiskLog.RepeatedCrashes` | log.c:115-122 | the same for any chain of crashes, each during the recovery from the one before |
| `DiskLog.InstallIsOverlay` | log.c:69-82 | installing all logged blocks leaves the home area overridden by the last logged contents of each sector |
| `DiskLog.HeaderCommits` | log.c:101-113 | writing the header with the transaction's sectors is the commit point: from then on recovery gives the overridden home area |
| `DiskLog.ClearHeaderRecovers` | log.c:120-121 | with a cleared header, recovery leaves the home area alone |
| `DiskLog.LoggedRewrite` | log.c:169-177 | rewriting the log slot of a sector already logged overrides that sector's logged contents and no other's |
| `DiskLog.LoggedAppend` | log.c:169-179 | logging a new sector adds its contents to the transaction |
| `DiskLog.AbsorptionIsInPlace` | log.c:159-181 | for every sequence of log_writes, keeping one slot per sector comes to the same home area as making each update in place |
| `DiskLog.RecoveryTrail` | log.c:115-122 | every disk written during recovery is a possible crash state that recovers to the same home area, and recovery ends with a cleared header |
| `BufferCache.UnlinkRing` | bio.c:127-128 | taking a buffer out of the doubly linked list leaves a ring of the others in the same order |
| `BufferCache.PushRing` | bio.c:129-132 | linking it at the head gives a ring with it in front |
| `BufferCache.ToFrontAll` | bio.c:119-138 | after a release the list is still a permutation of all NBUF buffers |
| `BufferCache.ReadKeeps` | bio.c:61-105 | reading keeps the cache coherent with disk and log, and returns the sector's latest logged contents, or else the disk's |
| `BufferCache.ReleaseKeeps` | bio.c:119-138 | releasing a buffer that was logged or written keeps the cache coherent |
| `BufferCache.InstallKeeps` | log.c:74-81 | installing one log block keeps the cache coherent, with that sector no longer dirty |
| `BufferCache.PinKeeps` | log.c:173-180 | logging a new sector and marking its buffer dirty keeps the cache coherent with the longer log |
| `BufferCache.RepinKeeps` | log.c:169-180 | a buffer logged again in its old slot is already dirty and agrees with its log block |
| `BufferCache.PinningFits` | bio.c:82-92 | if only the transaction's dirty buffers and some held ones are unavailable, and together they are fewer than NBUF, a recyclable buffer exists |
| `LogSystem.System.constructor` | bio.c:38-56 | the list built at start is a ring of all buffers, none busy, valid or dirty |
| `LogSystem.System.Bget` | bio.c:61-93 | returns the cached buffer if not busy; must sleep if busy; otherwise recycles the least recently used buffer neither busy nor dirty; reaches "no buffers" exactly when there is none |
| `LogSystem.System.Iderw` | memide.c:36-58 | a dirty buffer is written to its sector in one atomic step and becomes clean; otherwise the sector is read |
| `LogSystem.System.Bread` | bio.c:96-105 | the buffer read holds the cached or the disk contents; the disk is untouched |
| `LogSystem.System.Bwrite` | bio.c:108-115 | exactly the buffer's sector changes on disk, as one crash point |
| `LogSystem.System.Brelse` | bio.c:119-138 | the buffer is free and at the front of the list, which keeps all buffers |
| `LogSystem.System.WriteHead` | log.c:101-113 | the header sector lists exactly the logged sectors; no other sector changes |
| `LogSystem.System.ReadHead` | log.c:85-96 | the in-memory header is the one on disk |
| `LogSystem.System.InstallTrans` | log.c:69-82 | each logged block reaches its home sector in turn, without running out of buffers |
| `LogSystem.System.RecoverFromLog` | log.c:115-122 | the disk becomes the recovered one, through exactly the states a crash during recovery allows |
| `LogSystem.System.InitLog` | log.c:53-66 | after boot the invariant holds and the disk is recovered |
| `LogSystem.System.BeginTrans` | log.c:124-133 | one transaction at a time; it starts with nothing pending |
| `LogSystem.System.Modify` | log.c:150-157 | a caller's change to a buffer it holds, before log_write, keeps the invariant and what is pending |
| `LogSystem.System.LogWrite` | log.c:159-181 | panics exactly when the log is full or no transaction is open; otherwise the sector's contents are pending, the home area is untouched and the buffer is pinned; never lacks a buffer with at most eight sectors logged and only b and logged buffers held |
| `LogSystem.System.CommitTrans` | log.c:135-149 | the home area becomes the old one overridden by everything pending; every disk since the transaction began recovers to the old home area before the header write, and to the new one from it on; a buffer is there when logged sectors and held buffers are fewer than NBUF |
| `LogSystem.System.Read` | bio.c:96-105 | within a transaction a read returns the sector as the transaction has left it |
| `LogSystem.ViewIsLogged` | bio.c:61-105 | for every home sector not in use, what the cache shows is the home area overridden by the pending contents |
| `LogSystem.AtomicAcrossCrashes` | log.c:115-122 | a disk that recovers to a home area still does after any chain of crashes during recovery |
| `CrashSafety.Transact` | log.c:124-181 | a transaction that logs a set of blocks: every disk it writes recovers to the home area before it, or to that with all the blocks, and in the end the home area is what the file system sees |
| `CrashSafety.StoredBelow` | fs.c:201-221 | a file system whose blocks lie below the log is stored whole in the home area: its inodes and the contents they lead to |
| `CrashSafety.StoresOnce` | fs.c:201-221 | a home area determines the contents of each file stored in it |
| `CrashSafety.FitsExact` | log.c:164-165 | from the disk before a chunk: the log has room for it and all it logs lies below the log, if and only if it does not trip the check and the free blocks it takes lie below |
| `CrashSafety.ChunkReaches` | file.c:137-154 | if the first k bytes could be written, the next chunk fits the disk it finds if and only if, on the disk before the call, k and this chunk can be: the range, enough free blocks below the log for the slots that have none, no chunk that trips the check |
| `CrashSafety.WriteAtomic` | file.c:141-147 | a chunk as one transaction fails exactly on a bad range, panics only if fewer blocks are free than slots on its way have none, and otherwise is carried out exactly if it so fits; a crash at any of its sector writes leaves all files as they were, or this one with the chunk spliced in and the others as they were |
| `CrashSafety.FileWriteAtomic` | file.c:129-158 | filewrite completes if and only if the disk before the call allows all of it: in range, a free block below the log for every slot on the way that has none, and no chunk that trips the capacity check; otherwise it stops before the first chunk that the same condition excludes. The last disk recovers to the file with exactly the bytes done spliced in; a crash at any sector write leaves some whole chunks, or all of the data, and the others as they were |
| `CrashSafety.SurviveAgain` | log.c:115-122 | so do any number of further crashes during recovery |
| `CrashSafety.Reboot` | log.c:53-66 | a boot on such a disk ends with these files in the home area, and every disk it writes on the way still leaves them |
| `FileIndex.TakenOwned` | fs.c:52-76 | taking a free block keeps ownership exact and changes no file's addresses |
| `FileIndex.RecordsOwned` | fs.c:365-418 | recording an orphan block at an empty slot keeps ownership exact |
| `FileSystem.FindClear` | fs.c:63-65 | the first clear bit below the limit |
| `FileSystem.Fs.Balloc` | fs.c:52-76 | takes the lowest free block, zeroed and marked; fails exactly when there is none |
| `FileSystem.Fs.Bmap` | fs.c:365-418 | returns the block of file block bn in the direct, indirect or double-indirect range; allocates only along its path, only fresh nonzero blocks; changes nothing when it is mapped |
| `FileSystem.Fs.IUpdate` | fs.c:201-221 | the inode's words on disk are the in-memory ones, and other inodes' are untouched |
| `FileSystem.Fs.Readi` | fs.c:502-526 | returns exactly the slice of the file's bytes, fails exactly past the end or on wrap-around, and never allocates |
| `FileSystem.Fs.Writei` | fs.c:530-560 | the file's bytes change exactly at [off, off+n), growing if needed; no other file's bytes change; fails exactly on a bad range, and panics exactly if fewer blocks are free than slots on its way have none; the blocks taken and the sectors logged are given exactly, no other sector changes, and a growing write trips the log's capacity check exactly if the disk before says so |
| `FileSystem.Fs.Bfree` | fs.c:79-95 | clears exactly that block's bit; the "freeing free block" panic is excluded by its callers |
| `FileSystem.Fs.ITrunc` | fs.c:425-486 | clears exactly the bits of the blocks reachable through addrs, each set when freed; empties the file; other files keep their bytes; the tag block stays |
| `FileSystem.Fs.Ialloc` | fs.c:172-198 | the first inode free on disk, zeroed but for its type; all other files unchanged; no block is lost exactly if none was recorded in the inode |
| `FileSystem.Fs.Ifree` | fs.c:324-343 | the inode is empty and free on disk, its index and data blocks are free, its tag block is not; other files unchanged |
| `FileSystem.Fs.Tag` | fs.c:733-755 | the first tag gets a fresh block owned by the inode; tag block and counter are stored; no file changes |
| `Inodes.TagAllocated` | fs.c:733-736 | recording a fresh tag block keeps ownership exact and changes no file |
| `Inodes.ReuseExact` | fs.c:183-189 | after an inode is allocated again, some ownership map accounts for every block in use if and only if nothing was recorded in the inode |
| `Inodes.FreedReuse` | fs.c:324-343 | for a freed inode: if and only if it had no tag block |
| `Inodes.AllRecorded` | fs.c:172-343 | over every run of writes, truncations, tags and allocations, every block in use is still recorded in some inode if and only if no inode was allocated with a block recorded in it |
| `FileSystem.Fs.FileWrite` | file.c:120-158 | the bytes written so far are in place after every chunk; it writes everything if and only if that is in range and the free blocks suffice for the slots without one, on the disk before the call; log_write's capacity check trips if and only if one of the chunks trips it, also a condition on that disk; with room in one bitmap block none does |
| `FileSystem.Fs.CrossingWrite` | file.c:135-147 | a whole chunk at the end of the file that crosses from the single- to the double-indirect range trips the check if and only if the first bitmap block with a free bit has fewer than five |
| `FileSystem.CrossingHappens` | file.c:135-147 | with mkfs's numbers there is a file system, no block lost, with four free bits in the first bitmap block that has any and a file whose next chunk so crosses and trips the check |
| `Capacity.MadeTook` | fs.c:52-76 | a write takes the lowest free blocks, one for each index or data slot on its way that has none, and leaves every other slot as it was |
| `Capacity.StoppedCount` | fs.c:52-76 | when balloc runs out part of the way through a write, the disk before had fewer free blocks than the write's slots without one |
| `Capacity.MadeSectors` | log.c:159-181 | it logs exactly the bitmap blocks of those free blocks, the blocks of the slots it fills with the index blocks that record them, and the data blocks it writes |
| `Capacity.MadeCount` | log.c:159-181 | their number, from the disk before the write |
| `Capacity.MadeTrips` | log.c:164-165 | the inode's log_write finds the log full if and only if that number is nine or more |
| `Capacity.TripsShift` | file.c:137-154 | the condition for a later chunk, read from the disk before the call, is the one read from the disk before that chunk |
| `Capacity.TwoMaps` | fs.c:60-65 | the k lowest free blocks lie in two bitmap blocks or more if and only if the first bitmap block with a free bit has fewer than k |
| `Capacity.CrossingIf` | file.c:135-147 | for a file that ends inside file block 138 with nothing mapped behind it, and five free blocks: the next whole chunk trips the check if and only if the first bitmap block with a free bit has fewer than five |
| `FileSystem.ChunkRoom` | file.c:135-147 | a chunk of at most 1536 bytes logs at most eight sectors besides its inode, for every offset and file shape, when its allocations fall in one bitmap block |
| `FileBytes.ChunkAddrs` | file.c:135-147 | a chunk touches at most seven index and data blocks |
| `FileBytes.SevenSlots` | fs.c:378-415 | the bound of seven is reached at the boundary between the single- and double-indirect ranges, by these slots |
| `FileBytes.WroteContent` | fs.c:547-558 | the loop's effect on every byte is the splice of the new bytes into the old contents |
| `FileBytes.SpliceTwice` | file.c:137-154 | writing two consecutive pieces is writing their concatenation |
| `FileBytes.UpdateSyncsOther` | fs.c:207-214 | storing one inode leaves the others in its block as they were |
| `Truncation.FreeSlot` | fs.c:442-481 | each block freed in turn is still marked in use, so the "freeing free block" panic is unreachable |
| `Truncation.TruncFiles` | fs.c:425-486 | after the whole truncation ownership is exact and other files are unchanged |
| `FileSystem.BallocAvoidsLog` | fs.c:61-63 | balloc's choice lies below the log exactly when some block below the log is free |
| `FileSystem.BallocCanTakeLogHeader` | mkfs.c:88-95 | with mkfs's numbers there is a file system at rest, every block in use recorded in a file, in which the first free block is the log header |
| `Mkfs.FormattedOwned` | mkfs.c:88-98 | the disk mkfs starts from, with its bitmap, satisfies ownership with no block owned |
| `Mkfs.MarkedBits` | mkfs.c:231-243 | the bitmap loop sets exactly the first n bits |
| `Mkfs.FullDisk` | mkfs.c:16-23 | two files can take every block below the log, each recorded in one place, with their inodes stored and no holes |
| `Mkfs.Store` | fs.c:201-221 | two files of any size their blocks cover can be stored, with the disk at rest afterwards |
| `FileSystem.Fs.constructor` | mkfs.c:88-98 | the file system laid out by mkfs satisfies the whole invariant |
| `Links.Namecmp` | fs.c:565-569 | zero exactly when the names agree up to DIRSIZ |
| `Links.Strncpy` | string.c:68-79 | the stored name is the first DIRSIZ bytes, NUL-padded |
| `Links.NamingKeeps` | sysfile.c:257-279 | naming a file in a directory keeps link counts, unique names and dots exactly when the directory is in the tree and the count goes up by one within a short; the counts alone tell |
| `Links.MkdirKeeps` | sysfile.c:266-275 | making a directory keeps them exactly when its parent is in the tree with room for one more link; the counts alone tell |
| `Links.MkdirInDead` | sysfile.c:266-275 | in a removed directory, it makes the link count of the inode that ".." names wrong |
| `Links.EmptyDirOnce` | sysfile.c:165-221 | an empty directory has one link, its name in the directory its ".." names |
| `Links.RemoveKeeps` | sysfile.c:214-225 | unlinking an empty directory keeps them |
| `Links.UnlinkFileKeeps` | sysfile.c:214-225 | unlinking a file keeps them |
| `Links.ReapKeeps` | fs.c:324-343 | freeing an inode with no links keeps them |
| `LinkOps.StepKeeps` | sysfile.c:118-280 | every call keeps link counts, unique names and dots if and only if it fails or its caller's side is proper: the directory is in the tree and no count overflows; the whole invariant holds exactly when those do |
| `LinkOps.RunKeeps` | sysfile.c:118-280 | over every sequence of proper calls, nlink is the number of entries other than "." that refer to the inode from directories in the tree |
| `LinkOps.Tree.Dirlookup` | fs.c:573-597 | finds the first entry whose name agrees up to DIRSIZ, or none |
| `LinkOps.Tree.Dirlink` | fs.c:600-627 | puts the entry into the first free slot, and fails exactly when the name is present |
| `LinkOps.Tree.Isdirempty` | sysfile.c:165-179 | true exactly when only the dots are in use |
| `LinkOps.Tree.Ialloc` | fs.c:172-198 | takes the first free inode; 0 stands for the panic when there is none |
| `LinkOps.Tree.Link` | sysfile.c:129-162 | succeeds with exactly the new name added and one link more, or everything is rolled back |
| `LinkOps.Tree.Unlink` | sysfile.c:195-235 | succeeds with exactly that name gone from that directory, all other lookups as before and one link less, or changes nothing; the panic on nlink < 1 cannot happen |
| `LinkOps.Tree.Create` | sysfile.c:237-280 | for a present name returns the inode found if both are files and fails otherwise; for a new name returns the first free inode, with exactly that name added, empty or with dots for a directory; panics exactly when the inode found, or none, is free |
| `LinkOps.Tree.Iput` | fs.c:324-343 | the last reference to an inode without links makes it free and empty; any other call changes nothing |
| `LinkOps.UnlinkDoes` | sysfile.c:195-235 | a successful unlink takes exactly that name from exactly that directory: lookups of every other name there, and of every name elsewhere, find what they did; the inode it named has one link less and, if a directory, its parent too |
| `LinkOps.UnlinkCan` | sysfile.c:195-213 | unlink succeeds if and only if the name is not a dot, is there, and what it names is not a directory with other entries than its dots |
| `LinkOps.LinkDoes` | sysfile.c:129-162 | a successful link adds exactly that name to exactly that directory, for that file with one link more |
| `LinkOps.CreateDoes` | sysfile.c:237-280 | a successful create adds exactly that name, for the first free inode with one link, empty or with dots naming itself and its parent |
| `LinkOps.BlankOk` | mkfs.c:104-115 | a file system with an empty root satisfies the invariant |
| `LinkOps.CreateInRemoved` | sysfile.c:237-280 | creating a file in a removed directory gives it a link count of one that no entry in the tree accounts for |
| `Tags.TagTable.Scan` | fs.c:740-761 | finds the key exactly when present, stops inside the block although holes do not advance its counter, and yields a free slot |
| `Tags.TagTable.Ftag` | fs.c:720-779 | a map insert; the counter equals the number of tags afterwards exactly when the key was new |
| `Tags.TagTable.Funtag` | fs.c:781-822 | a map delete, -1 exactly when the key is absent |
| `Tags.TagTable.Gettag` | fs.c:824-871 | a map lookup: the value reads back with its length, -1 exactly when absent |
| `Tags.InsertRepresents` | fs.c:763-770 | a tag written into a hole adds one pair to the map and leaves the others |
| `Tags.TagTable.Search` | fs.c:740-761 | whatever the counter: finds the key exactly if fewer tags than the counter precede it, and runs past the slots exactly if it does not and the counter exceeds the number of tags |
| `Tags.OverwriteMiscounts` | fs.c:743-752 | tagging twice with one key leaves one tag and a counter of two, after which a scan for any other key runs past the slots |
| `Tags.Replay` | fs.c:720-871 | after any run of fresh inserts and deletes, a lookup answers as the map does |
| `FreeList.InsertOrdered` | umalloc.c:30-42 | inserting a block with both-sided coalescing keeps the list address-ordered, apart and uncoalesced neighbours apart |
| `FreeList.InsertUnits` | umalloc.c:33-42 | the free units afterwards are those before and the block's |
| `FreeList.CarveOrdered` | umalloc.c:75-82 | taking a block or its tail keeps the list ordered and clear of the part taken |
| `Heap.StopTest` | umalloc.c:30-32 | the loop's test holds at exactly one list element, from any starting point |
| `Heap.SlotExists` | umalloc.c:30-32 | such an element always exists |
| `Heap.Allocator.Search` | umalloc.c:30-32 | the search ends at that element |
| `Heap.Allocator.Free` | umalloc.c:24-44 | the block's units become free, coalesced on both sides; nothing else changes |
| `Heap.Allocator.Morecore` | umalloc.c:46-61 | adds to the arena and the list exactly the units the process has grown by; changes nothing when sbrk fails; stores a header behind the end of the process exactly when sbrk succeeds on an argument that is not positive; the recorded size and what is mapped afterwards are those of sbrk |
| `Heap.Allocator.Malloc` | umalloc.c:63-90 | calls morecore at most once, exactly when nothing fits; up to 0x7fff_fff0 bytes it returns a block if and only if one fits or the process can grow by enough, and 0 otherwise; the request then gets its units, or 0 and nothing changes, if and only if it is at most that or wraps and sbrk fails; else a new block of the units computed |
| `Heap.AsksEnough` | umalloc.c:52-54 | the int that sbrk receives is what the request needs if and only if nbytes is at most 0x7fff_fff0; it is not positive exactly from there to 2^32 - 8 |
| `Heap.RequestMet` | proc.c:107-124 | sbrk obtains what the request needs, or fails without a change, exactly for those requests and for wrapped ones on which it fails |
| `Heap.SbrkGrants` | proc.c:107-124 | for a request up to 0x7fff_fff0 bytes sbrk succeeds exactly if there is room and the size stays below 2 GB, and then grows by what the request needs |
| `Heap.HalfOfMemory` | sysproc.c:45-56 | for 0x7fff_fff8 bytes sbrk is asked for -2^31 and reports success with the size unchanged, for every process; likewise for 2^32 - 8 |
| `Heap.NUnitsHoldRequest` | umalloc.c:69 | the units computed hold the request exactly when nbytes is at most 2^32 - 8 |
| `Heap.WrappedRequest` | umalloc.c:69 | the largest request is given a bare header |
| `Heap.UnitsConserved` | umalloc.c:24-90 | in every state of the invariant, free plus allocated units are the units obtained |
| `SleepWakeup.StepInv` | proc.c:274-437 | every step of every CPU keeps the invariant on locks, states, CPUs and sleepers, and none panics |
| `SleepWakeup.NoLostWakeup` | proc.c:359-414 | in every state of every run, a process asleep on a true condition is there only while some process that made it true has yet to call wakeup1 |
| `SleepWakeup.WakeupWakes` | proc.c:398-406 | after that process runs wakeup1 nobody is asleep on the channel |
| `SleepWakeup.NeverPanics` | proc.c:310-325 | no run reaches a panic of acquire, release, popcli or sched |
| `SleepWakeup.OneOwner` | spinlock.c:24-89 | every held lock is held by exactly one context, on the CPU it names |
| `SleepWakeup.HandOff` | proc.c:274-325 | across each switch, in either direction, the switching CPU is the one owner of ptable.lock before and after |
| `SleepWakeup.WakeInv` | proc.c:398-414 | the wakeup1 step keeps the invariant |
| `SleepWakeup.SwitchInv` | proc.c:309-325 | the switch to the scheduler keeps the invariant, with all of sched's checks met |
| `SleepWakeup.SchedPickInv` | proc.c:285-301 | the switch to a runnable process keeps the invariant; `Progress.PicksAny` says what it does |
| `Progress.Moves` | proc.c:309-437 | a process on a CPU can take its next step exactly unless that step acquires a lock held by another CPU |
| `Progress.PicksAny` | proc.c:286-301 | a scheduler that holds ptable.lock can switch to every runnable process, which then runs on its CPU from where it left off, a sleeper as woken on its channel; nothing else changes |
| `Progress.NeverStuck` | proc.c:274-437 | in every state of every run some CPU can take a step |
| `Progress.OwnerMoves` | spinlock.c:24-89 | while a lock is held, a CPU that holds one can take a step, so no locks wait on each other in a circle |
| `Progress.Drain` | spinlock.c:24-89 | from every state of the invariant, finitely many steps of the CPUs that are inside critical sections free every lock, and processes outside stay as they are |
| `Progress.WokenReturns` | proc.c:345-395 | in every state of every run, a process that was woken can be brought back to test the condition it waited for, holding the lock it slept with |
| `Progress.TrueConditionIsTested` | proc.c:345-414 | so can every process asleep on a true condition, whether or not the wakeup has been called yet |
| `ExitWait.ProcTable.Wakeup1` | proc.c:398-406 | exactly the processes asleep on the channel become runnable |
| `ExitWait.ProcTable.AllocProc` | proc.c:35-53 | the first unused slot becomes an embryo with a new pid, or none is unused |
| `ExitWait.ProcTable.Exit` | proc.c:167-204 | the parent is woken, children pass to init, init is woken for a zombie among them, the process is a zombie; only init panics |
| `ExitWait.ProcTable.Reparent` | proc.c:192-198 | the adoption loop, with init woken if any child is a zombie |
| `ExitWait.ProcTable.Wait` | proc.c:209-247 | one pass: reaps the first zombie child, fails exactly without children or when killed, or sleeps |
| `ExitWait.ProcTable.Kill` | proc.c:419-437 | marks the first process with the pid, which does not sleep afterwards |
| `ExitWait.KillDoes` | proc.c:419-437 | exactly the first process with the pid changes: it is marked, and runnable if it slept |
| `ExitWait.KillMisses` | proc.c:419-437 | without such a process nothing changes |
| `ExitWait.AllocDoes` | proc.c:35-53 | exactly the first unused slot becomes an embryo with the next pid |
| `ExitWait.ExitDoes` | proc.c:167-204 | for every process: it is reparented exactly if its parent exits, woken exactly if it sleeps on the parent's channel, or on init's when a zombie is orphaned, and otherwise as it was |
| `ExitWait.WaitReaps` | proc.c:214-234 | exactly the first zombie child is cleared, and its pid answered |
| `ExitWait.WaitWaits` | proc.c:236-246 | without a zombie child it sleeps on its own channel exactly if it has a child and is not killed, and changes nobody else |
| `ExitWait.ExitKeeps` | proc.c:186-204 | exit keeps the invariant of the table |
| `ExitWait.WaitKeeps` | proc.c:214-247 | so does each pass of wait |
| `ExitWait.StepKeeps` | proc.c:35-437 | so does every operation, including the unlocked writes of fork between other processes' steps |
| `ExitWait.ParentsAlive` | proc.c:128-204 | in every reachable state every process but init, alive or zombie, has an alive parent |
| `ExitWait.NoWaiterMissesZombie` | proc.c:167-247 | in every reachable state a process asleep in wait has a child and no zombie child, and is not killed |
| `ExitWait.ReapedOnce` | proc.c:167-247 | no pid is reaped twice, only exited ones are, and each exited one is reaped or still a zombie |
| `Kills.StepDeserved` | proc.c:35-53 | from a table in which every process marked killed was killed by its own pid, a step keeps it so if and only if fork takes no slot that is marked already |
| `Kills.StepUnmarked` | proc.c:419-437 | unused slots get marked exactly by a kill whose pid is found first in an unused slot, and by a failed fork of an embryo that was killed |
| `Kills.KilledByName` | proc.c:35-437 | over every run: in every state each process marked killed was killed by its own pid, if and only if no fork took a marked slot |
| `Kills.NoStrays` | proc.c:35-437 | so it is when kill finds no unused slot and no fork of a killed embryo fails |
| `Kills.BornKilled` | proc.c:419-437 | after kill(0) the first child is marked killed from birth, and no kill named its pid |
| `Pipe.Pipe.Write` | pipe.c:79-97 | a segment of pipewrite appends exactly as many of the bytes left as fit in 512, in order; it returns when all are in, fails when the pipe is full and nobody can read or it was killed, and sleeps otherwise |
| `Pipe.Pipe.Read` | pipe.c:101-121 | a segment of piperead removes exactly the first min(n, buffered) bytes; or, on an empty pipe with an open write end, fails if killed and sleeps otherwise |
| `Pipe.WriteExact` | pipe.c:79-97 | the same of the specification, from the bytes sent and received alone |
| `Pipe.ReadExact` | pipe.c:101-121 | likewise for reading: how many bytes, which, and when it fails or sleeps |
| `Pipe.AddedInOrder` | pipe.c:79-97 | over all segments of a write, with anything in between: the bytes added are all of it, in order, when it returns; those before its place when it sleeps; a prefix when it fails |
| `Pipe.Pipe.Close` | pipe.c:58-74 | closes one end and wakes the other; frees the pipe exactly when both are closed |
| `Pipe.Apart` | pipe.c:84-113 | counters at most 512 apart are told apart modulo 2^32, for both the empty and the full test |
| `Pipe.AlwaysFifo` | pipe.c:77-120 | in every run bytes read followed by bytes buffered are the bytes written, at most 512 buffered |
| `Pipe.StepSleep` | pipe.c:77-120 | a step keeps "a sleeping reader has an empty open pipe, a sleeping writer a full open one" if and only if it is not a killed writer's with more to write than fits while readers sleep |
| `Pipe.NeverBothAsleep` | pipe.c:77-120 | with no killed writer, in every run sleepers are sound and readers and writers never sleep at once |
| `Pipe.KilledWriterStrandsReader` | pipe.c:84-91 | a killed writer of 513 bytes leaves a reader asleep over 512 bytes |
| `Paging.SetKeeps` | vm.c:81-83 | mapping a page in hand, or taking a mapped page in hand, keeps the ownership of pages exact and changes one entry of one table |
| `Paging.TableKeeps` | vm.c:55-62 | adding a blank page table keeps it exact and changes no mapping |
| `Paging.OneUse` | kalloc.c:59-95 | no page has two uses: free list, directories, tables and user pages are disjoint |
| `Paging.SomeUse` | kalloc.c:59-95 | every managed page not in hand has a use |
| `Vm.Machine.constructor` | kalloc.c:31-36 | memory of which nothing is managed yet satisfies the invariant |
| `Vm.Machine.Freerange` | kalloc.c:45-52 | exactly the whole pages of the range become free, the last first |
| `Vm.Machine.Kalloc` | kalloc.c:82-95 | takes the first free page, fails exactly when there is none |
| `Vm.Machine.Kfree` | kalloc.c:59-77 | puts the page, filled with junk, at the head of the free list |
| `Vm.Machine.Walkpgdir` | vm.c:45-65 | finds the table, or makes one exactly if asked and a page is left, present, writable and open to user code; no mapping changes |
| `Vm.Machine.Mappage` | vm.c:70-90 | maps exactly that page, present, writable and open to user code; fails exactly when a table is needed and no page is left |
| `Vm.Machine.Allocuvm` | vm.c:220-243 | with enough free pages for the pages and the tables they lack, all are mapped to zeroed pages, writable and open to user code, exactly those pages are taken and nothing else changes; one page short with the last page needing a table, success is reported with that page unmapped; otherwise every mapping is restored. A page is lost, exactly one, if and only if the last free page goes to a page that needs a table |
| `AddressSpace.OnePageLies` | vm.c:231-241 | with one free page, growing a directory without tables by one page is such a case |
| `Vm.Machine.Deallocuvm` | vm.c:249-273 | frees and unmaps exactly the mapped pages its loop visits |
| `AddressSpace.SkipIsExact` | vm.c:258-263 | the loop visits every mapped page of the range exactly when no page of the first table is mapped below the starting index |
| `AddressSpace.ContiguousIsClean` | vm.c:258-263 | which holds for pages mapped from 0 without a gap |
| `AddressSpace.SkipMisses` | vm.c:259-262 | and fails for page 1024 when shrinking to one page that has no table |
| `Vm.Machine.Freevm` | vm.c:277-292 | every page of the directory is free, once each, and no other page changes role |
| `Vm.Machine.Setupkvm` | vm.c:128-144 | a directory with no user tables, made of pages free before and no more; fails exactly when pages for it and the kernel's tables are lacking, and then every page that was free is lost |
| `Vm.Machine.Copyuvm` | vm.c:309-336 | succeeds exactly with enough free pages; then equal contents in pages free before, writable and open to user code, parent unchanged, and exactly those pages taken; on failure roles are as before if and only if memory did not run out at a table, and the number of pages lost is exact |
| `Conservation.Conserved` | vm.c:128-336 | over every run of setupkvm, allocuvm, deallocuvm, freevm and copyuvm, pages in somebody's hand (kernel stacks, pipes) stay there, and those at the end are those at the start if and only if no call ran out of memory at a page table |
| `Conservation.LostForGood` | vm.c:128-336 | a lost page is lost in every later state |
| `Conservation.Partitioned` | vm.c:128-336 | in every state of a run without such a call, each managed page that nobody held at the start is on the free list, a directory, or in one place of one directory, and not two of these |
| `Shell.Parser.GetToken` | sh.c:266-309 | the token at the cursor and the cursor after it, as the grammar's function says |
| `Shell.Parser.Peek` | sh.c:311-321 | skips white space and tests the next character |
| `Shell.Parser.ParseRedirs` | sh.c:375-398 | the redirections in order |
| `Shell.Parser.ParseExec` | sh.c:416-447 | a simple command or block |
| `Shell.Parser.ParseBlock` | sh.c:400-414 | a parenthesised line with its redirections |
| `Shell.Parser.ParsePipe` | sh.c:362-373 | a simple command or block, alone or followed by a bar and a pipeline; what follows it, "&" and ";" included, is left to the caller |
| `Shell.Parser.ParseLine` | sh.c:345-360 | a pipeline, its background marks, and after a semicolon another line |
| `Shell.Parser.ParseCmd` | sh.c:328-343 | the whole line is consumed, or the panic; afterwards a NUL stands at each word's end and nothing else has changed |
| `Shell.Parser.NulTerminate` | sh.c:450-494 | NULs exactly at the ends of the command's words |
| `Shell.WordReadsBack` | sh.c:450-494 | a pointer to any word of a parsed command then reads exactly that word |
| `Grammar.TokenAt` | sh.c:266-309 | a word token is a maximal nonempty run of word characters |
| `Grammar.CmdOf` | sh.c:328-343 | on success every word of the command is such a run and each command has fewer than ten |
| `ShellSyntax.ParserIsGrammar` | sh.c:266-447 | for every line: the parser accepts it if and only if its tokens are a sentence of the grammar with at most nine words in each simple command, and the tree, with mode and descriptor of each redirection, is the meaning of every sentence the line can be read as; so a bar binds tighter than "&" and ";", both group to the right, and the last redirection is outermost |
| `ShellSyntax.LineMeans` | sh.c:345-360 | a sentence followed by the end or a closing parenthesis parses as its meaning, and what follows is left |
| `ShellSyntax.PipeMeans` | sh.c:362-373 | a pipeline followed by "&", ";", a closing parenthesis or the end likewise |
| `ShellSyntax.ExecMeans` | sh.c:416-447 | a simple command with redirections before, between and after its words, or a block with redirections after it, likewise |
| `ShellRoundTrip.SpelledToks` | sh.c:266-309 | for every sequence of tokens in every layout (any white space, some between two words and between a ">" and another), the tokens read are those written; ">>" is one token |
| `ShellRoundTrip.SentenceParses` | sh.c:266-447 | every sentence of the grammar, with or without needless parentheses, in every layout parses as its meaning |
| `ShellRoundTrip.RoundTrip` | sh.c:266-447 | for every tree with well-formed words and at most nine arguments per command, parsing its printing gives the tree back, with mode and descriptor of each redirection; parentheses are printed only where the grammar needs them |
| `ShellRoundTrip.FewestBlocks` | sh.c:345-414 | no sentence with the same meaning has fewer parentheses than that printing |
| `ShellRoundTrip.PointersRead` | sh.c:450-494 | read through the pointers, the command is the same tree |
| `ShellRoundTrip.ParsePrinted` | sh.c:328-343 | applied to a printing, the parser gives pointers that read the tree |
| `Regex.Match` | grep.c:71-81 | true exactly when some split of the text from some position, or from the start after '^', matches the pattern |
| `Regex.MatchHere` | grep.c:84-95 | true exactly when the pattern matches at the beginning of the text |
| `Regex.MatchStar` | grep.c:98-105 | true exactly when some run of the character followed by the rest matches |
| `Regex.StarUnfolds` | grep.c:88-89 | the declarative meaning of c* followed by a pattern |
| `Regex.OneUnfolds` | grep.c:92-94 | the declarative meaning of a single character followed by a pattern |

## Left out

- Boot code, assembly, interrupts and hardware drivers: port I/O and machine state; `swtch` is a step of the state machine and a disk request is one atomic sector access.
- Symbolic links: the link flag lives only in memory and `addrs` is reused as text, so the file invariants do not apply to such inodes.
- Device inodes in `readi` and `writei`, the console, `printf`, `exec`, system-call argument fetching and trap dispatch.
- The inode cache (`iget`, `iput` reference counts, `ilock`): an inode's fields are those of the model, `iput` enters only as the freeing of an inode without links. `ilock` does not load the tag fields; the tag table starts from fields correctly loaded.
- Path resolution (`namex`): directories and names are parameters of the calls that use them.
- Directories are sequences of entries, not bytes read and written through `readi` and `writei`; running out of disk space in `dirlink` is not modelled.
- Steps inside one system call's transaction are not interleaved with other transactions, which the log excludes.
- FileSystem.Fs.FileWrite: a call on which `balloc` panics makes no claim about the capacity check of the chunk it panics in; `CrashSafety.FileWriteAtomic` is about such calls too.
- CrashSafety.WriteAtomic: the blocks a transaction logs are handed to the log at its end, each once with its last contents, where the source logs them as it goes; `AbsorptionIsInPlace` says that this comes to the same.
- LogSystem.System.LogWrite: the sector logged lies below the log area; `balloc` does not ensure that, see `BallocAvoidsLog`.
- Heap.Allocator.Morecore: the process size is a multiple of 8 and not below blocks obtained earlier, as when the program itself calls `sbrk` only to grow by multiples of 8; that `allocuvm` finds room means that it maps every page. The model stops before a store behind the end of the process.
- `Progress` is about what can be reached from every state: no fairness is assumed of the order in which CPUs step, so not every infinite run gets there.
- Interrupt enabling (`intena`, the flag tests of `sched` and `popcli`) in `SleepWakeup`; `fork` there, since processes exist from the start.
- `ExitWait` does not model the 32-bit wrap-around of `nextpid`, nor the kernel stack, files and memory of a process.
- `Shell` builds a simple command after its arguments and redirections are known, where the source fills in a node that redirections already point to; the resulting tree is the same.
- Vm.Machine.Mappage: `mappages` for one page, as `inituvm`, `allocuvm` and `copyuvm` call it; ranges occur only in `setupkvm`.
- LinkOps.Tree.Iput: the reference count is taken to be one; the truncation that goes with it is `FileSystem.Fs.Ifree`.
- FileSystem.Fs.Tag: the contents written are a parameter; `Tags` says what they are. A tag counter above zero without a tag block is excluded.
- FileSystem.Fs.Ialloc: the padding of an on-disk inode, always zero, is not written.
- `clearpteu`, with which `exec` closes the page below the stack to user code: every user page of the model is open.
- Vm.Machine.Setupkvm: the kernel's own mappings are opaque contents of the kernel half's table pages, one page per directory entry.
- The two phases of allocator start-up are two calls of `Freerange`; `mkfs` after it has laid out the disk.
- `fileread`, the small user programs and grep's line buffering.
