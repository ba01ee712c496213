# Verification of CINUX

CINUX is an xv6-style RISC-V kernel with a copy of mlibc. This project models the
parts of both that keep invariants no single function establishes, and proves what
they promise over every input, every interleaving and every run.

The model follows the sources' own form. State that the code updates in place is a
class whose methods have the code's loops and branches; protocols between CPUs,
processes, the disk and the power switch are transition systems whose steps are single
lock operations, field accesses or block writes; arithmetic is functions. Panics of the
source are explicit failures, or preconditions that the callers in the project are
shown to meet.

| files | what they model |
|---|---|
| `BufferRing`, `BufferCache` | the buffer cache and its LRU list: a transparent cache of the disk |
| `Crash`, `LogSteps`, `Log`, `LogSystem` | the redo log: crash atomicity of one commit, the code over the cache, and the whole system with concurrent operations and power loss |
| `Sv39`, `PageTable`, `PhysMem`, `Vm`, `VmFree` | page tables in a flat physical memory, the frame allocator, mapping, unmapping and freeing |
| `UserMemory`, `AddressSpace`, `ExecImage`, `ExecArgs`, `Exec`, `Processes` | what user code sees of its memory; page faults, copying, sbrk, fork, exec and exit; all processes at once |
| `Proc`, `ProcInv`, `ProcWait`, `ProcIrq`, `ProcKids`, `ProcTheorems`, `Spinlock` | scheduling, sleep and wakeup, interrupt handlers, fork, exit and wait in every interleaving; spinlocks instruction by instruction |
| `FsBlocks`, `Fs`, `Mkfs`, `MkfsImage` | bitmap, block map, file reads and writes, truncation, and the image builder from the first inode to the bitmap |
| `Virtio` | the virtio disk driver against an arbitrary device |
| `Pipe`, `FileTable` | pipes, the file table and descriptor slots |
| `FileIo` | buffered FILE streams over a file with short transfers |
| `Calendar` | Gregorian calendar arithmetic of gmtime_r and timegm |
| `Counting` | sizes of finite sets, used for buffers, descriptors and frames |

Three ideas carry most proofs. Ownership: every physical frame, disk block and
descriptor has exactly one use, and the use says where it hangs, so aliasing is ruled
out by a statement about one element at a time. Views: an address space, a file or a
stream is what its user reads from it, and operations are specified by what they do to
that. Auxiliary state, marked as such, records what the code leaves implicit: code
positions, queues with unbounded counts behind wrapping indices, the plain file behind
a buffered one.

What the proofs found about the code:

- gmtime_r is right exactly for times that are not negative or are exact midnights; one
  second before the epoch it reports 1970-01-01 with -1 seconds. timegm nevertheless
  undoes it, up to the day INT_MAX - 719468 after the epoch, above which the int sum in
  days_from_civil overflows.
- yearday_from_date treats every year as a leap year: after February it is right exactly
  in leap years.
- NBUF equals LOGBLOCKS, so commit panics in bget exactly when every buffer is
  referenced; if only logged blocks are, that is when 30 blocks are logged, which three
  operations within their budgets can bring about.
- log_write refuses a full log even for a block that is already logged. An operation
  within its budget never meets this.
- growproc with a negative amount larger than the size wraps round, changes nothing and
  reports success.
- When uvmcopy fails it leaves the interior tables it made; kfork gives them back.
- Reading a hole of a file allocates the missing blocks, which log_write refuses outside
  an operation. Files written by writei and iappend have no holes, and reading them
  allocates nothing. The one hole comes from mkfs: rounding up the size of a root
  directory that ends on a block boundary adds a block that does not exist.
- exec checks no upper bound on segments; it is saved by running out of frames before
  its pages reach the trapframe page. It refuses a program whose first segment is empty
  at address 0, since the new size 0 reads as a failure of uvmalloc.
- mkfs does not check that the files fit, but cannot read back a block past the image,
  so it gives up exactly when they do not.
- mkfs does not check the number of inodes either. The 207th file gets inode 208, which
  lies in the bitmap block, and the bitmap is written over it; from inode 224 on, inodes
  are written over blocks of files, the first of them over the root directory's
  entries. The finished image is good exactly up to 206 files.
- When writei cannot copy all of a chunk from the caller, it counts none of it, but the
  bytes before the first unreadable page are in the cached block. They are kept apart
  from the log, so they stay visible until the buffer is recycled, and last only if some
  operation logs the block.

- A writer of a pipe that finds itself killed returns without waking readers. If it has
  written something by then, a reader that sleeps goes on sleeping with bytes to read. In
  every other case nobody sleeps on a pipe, on disk descriptors, on a disk request or in
  begin_op who could go on.
- The sector number is computed in 32 bits, so a disk request for a block number of 2^31
  or more is for another block.
- Blocks that reading a hole allocates are entered in the inode in memory only; writei and
  itrunc write the inode back.

`dafny verify dfyconfig.toml` checks the whole project.

## Model

| member | source | states |
|---|---|---|
| `Calendar.CivilIsStepped` | mlibc/options/ansi/generic/time.cpp:993-1007 | civil_from_days of any day count, negative ones included, is the date reached by stepping a next-day or previous-day function from 1970-01-01 |
| `Calendar.CivilOfNextDay` | mlibc/options/ansi/generic/time.cpp:993-1007 | civil_from_days of the next day count is the next calendar day |
| `Calendar.CivilOfDays` | mlibc/options/ansi/generic/time.cpp:1304-1311 | a valid date turned into a day count and back is the same date |
| `Calendar.DaysOfCivil` | mlibc/options/ansi/generic/time.cpp:993-1007 | a day count turned into a date and back is the same day count, and the date is valid |
| `Calendar.YearOfEraIsExact` | mlibc/options/ansi/generic/time.cpp:996-997 | the four-division year formula gives the year of every day of a 400-year era |
| `Calendar.DayOfEraSplits` | mlibc/options/ansi/generic/time.cpp:996-999 | every day of an era has exactly one year and day of year within the year's length |
| `Calendar.MonthOfDay` | mlibc/options/ansi/generic/time.cpp:1000-1001 | the month formula inverts the month-start formula on every day of every month |
| `Calendar.DayOfMonth` | mlibc/options/ansi/generic/time.cpp:1000-1002 | every day of a year falls in a month, within that month's length |
| `Calendar.WeekdayAdvances` | mlibc/options/ansi/generic/time.cpp:1009-1012 | the weekday is in 0..6, is Thursday on day 0 and advances by one modulo 7, also across the branch for negative days |
| `Calendar.ClockFields` | mlibc/options/ansi/generic/time.cpp:1224-1226 | hour, minute and second add up to the remainder of the truncating division by a day |
| `Calendar.TimeGmOfGmTime` | mlibc/options/ansi/generic/time.cpp:1210-1319 | timegm undoes gmtime_r for every time, negative ones included, in unbounded arithmetic |
| `Calendar.NarrowRoundTrip` | mlibc/options/ansi/generic/time.cpp:1210-1319 | with every int of the source modelled, gmtime_r followed by timegm stays free of overflow and gives the time back if and only if the day count lies between INT_MIN and INT_MAX - 719468 |
| `Calendar.RangesExactly` | mlibc/options/ansi/generic/time.cpp:993-1311 | for an int day count, civil_from_days is free of int overflow exactly below one limit, and days_from_civil of its date exactly up to INT_MAX - 719468 |
| `Calendar.FirstOverflow` | mlibc/options/ansi/generic/time.cpp:1304-1311 | counterexample: on day 2146764180 gmtime_r is free of overflow and timegm of its result is not |
| `Calendar.GmTimeIsUtcExactly` | mlibc/options/ansi/generic/time.cpp:1210-1237 | the date, weekday and clock fields of gmtime_r are those of UTC if and only if the time is not negative or is an exact midnight |
| `Calendar.GmTimeBeforeEpoch` | mlibc/options/ansi/generic/time.cpp:1210-1237 | counterexample: one second before the epoch comes out as 1970-01-01 with -1 seconds |
| `Calendar.CivilFitsInt` | mlibc/options/ansi/generic/time.cpp:994-998 | for an int day count, the int product in civil_from_days stays in range exactly below a stated limit, and then so does the year |
| `Calendar.YearDayExactly` | mlibc/options/ansi/generic/time.cpp:1014-1019 | the day of the year is right if and only if the month is January or February, or the year is a leap year small enough not to overflow |
| `Calendar.YearDayOfMarch` | mlibc/options/ansi/generic/time.cpp:1014-1019 | counterexample: 1 March 1970 comes out as day 61 instead of 60 |
| `BufferRing.Unlink` | kernel/bio.c:128-129 | unlinking a node leaves one well-formed cycle of the others, in order |
| `BufferRing.LinkFirst` | kernel/bio.c:130-133 | linking a node in at the front leaves one well-formed cycle with it first |
| `BufferCache.MoveToFront` | kernel/bio.c:128-133 | the six link assignments move one buffer to the front and keep the list a cycle of all buffers ordered by last move to the front |
| `BufferCache.Bcache.constructor` | kernel/bio.c:36-53 | the initial cache is valid, holds no block and has every buffer spare |
| `BufferCache.Bcache.FindBlock` | kernel/bio.c:66-73 | finds the one buffer that holds the block, or shows that none does |
| `BufferCache.Bcache.FindVictim` | kernel/bio.c:77-87 | finds the unreferenced buffer that moved to the front longest ago, or shows that all are referenced |
| `BufferCache.Bcache.Bget` | kernel/bio.c:58-89 | adds a reference to the block, recycling the oldest unreferenced buffer; fails (the panic) exactly when the block is not cached and no buffer is spare; the block that the recycled buffer held falls back to what the disk has, so no logical contents change if no changes were given up unwritten |
| `BufferCache.Bcache.Bread` | kernel/bio.c:92-103 | returns a locked buffer with the block's logical contents; every other block, reference and lock is as before, up to the recycled buffer's block |
| `BufferCache.Bcache.Fill` | kernel/log.c:77 | changing a locked buffer's data changes the logical contents of that block only |
| `BufferCache.Bcache.Bwrite` | kernel/bio.c:106-112 | refused without the lock; else one block write of the logical contents, and nothing else changes |
| `BufferCache.Bcache.Brelse` | kernel/bio.c:116-137 | drops lock and reference and, on the last reference, moves the buffer to the front; recycling stays harmless if and only if other references remain or the disk has the changes |
| `BufferCache.Bcache.Touch` | kernel/bio.c:126-134 | the list after brelse: the released buffer is newest, the order of the others is kept |
| `BufferCache.Bcache.Bpin` | kernel/bio.c:139-144 | one more reference to the block, nothing else |
| `BufferCache.Bcache.Bunpin` | kernel/bio.c:146-151 | one reference fewer, list untouched; recycling stays harmless if and only if other references remain or the disk has the changes |
| `BufferCache.UpdateHolder` | kernel/bio.c:26-34 | at most one buffer per block, and agreement of buffer and logical state, survive a change of the one buffer that holds a block |
| `BufferCache.Recycle` | kernel/bio.c:77-87 | eviction of an unreferenced buffer keeps at most one buffer per block and the logical contents of every other block |
| `BufferCache.EvictionForgets` | kernel/bio.c:77-87 | recycling a buffer loses changes if and only if it holds valid data that the disk has not |
| `BufferCache.DropKeepsClean` | kernel/bio.c:116-137 | giving up a reference keeps all unreferenced blocks as on disk if and only if others remain or the disk has the changes |
| `Crash.RecoveryIsRestartable` | kernel/log.c:66-124 | recovery cut short after any block write and started again ends in the same disk |
| `Crash.CrashRunRecovers` | kernel/log.c:117-124 | any number of recoveries cut short anywhere before one that completes make no difference |
| `Crash.InstallsTransaction` | kernel/log.c:66-84 | installing a committed log puts every home block into its state after the transaction |
| `Crash.LoggingIsInvisible` | kernel/log.c:178-192 | before the header write, recovery leaves the home blocks as they were |
| `Crash.CrashAtomicity` | kernel/log.c:194-204 | for a crash after any block write of commit and any number of crashes in recovery, the completed recovery leaves all home blocks as before the transaction or all as after it, decided by the header write |
| `Log.RedoLog.constructor` | kernel/log.c:59-61 | an empty in-memory log, before recovery |
| `Log.RedoLog.LogOne` | kernel/log.c:184-191 | one turn: the cached home block goes to its log block in one block write |
| `Log.RedoLog.WriteLog` | kernel/log.c:178-192 | the disk passes through the logged states in order; panics before any write exactly when no buffer is spare |
| `Log.RedoLog.WriteHome` | kernel/log.c:76-80 | the home block is written and its pin dropped unless recovering |
| `Log.RedoLog.InstallOne` | kernel/log.c:71-83 | one turn: log block to home block on disk |
| `Log.RedoLog.InstallTrans` | kernel/log.c:66-84 | the disk passes through the installed states in order; views, locks and the log area are kept |
| `Log.RedoLog.ReadHead` | kernel/log.c:87-98 | the in-memory header becomes the header on disk |
| `Log.RedoLog.WriteHead` | kernel/log.c:103-115 | one block write of the header over the old block |
| `Log.RedoLog.RecoverFromLog` | kernel/log.c:117-124 | from a cache that agrees with the disk, the disk writes are exactly the recovery states and the disk ends recovered with an empty log |
| `Log.RedoLog.Commit` | kernel/log.c:194-204 | the disk writes are exactly the commit states; pins are gone and the log is empty; panics exactly when no buffer is spare, before writing |
| `Log.RedoLog.TryBeginOp` | kernel/log.c:127-143 | admitted exactly when not committing and the reservation fits, and else asleep; keeps that nobody sleeps who could be admitted |
| `Log.RedoLog.LogWrite` | kernel/log.c:215-236 | first logging appends and pins, logging again is absorbed, a full log is refused even then; keeps that nobody sleeps in begin_op who could be admitted |
| `Log.RedoLog.EndOpEnter` | kernel/log.c:147-165 | the last operation to end becomes the committer; panics while committing; afterwards nobody sleeps in begin_op who could be admitted |
| `Log.RedoLog.EndOpLeave` | kernel/log.c:167-174 | after a commit nobody sleeps in begin_op |
| `LogSteps.PinsUseUpTheCache` | kernel/log.c:215-236 | if only pins hold references, spare buffers are NBUF minus logged blocks |
| `LogSteps.SpareIsCounted` | kernel/bio.c:58-89 | a buffer is spare for every buffer that no referenced block occupies |
| `LogSystem.NeverTooBig` | kernel/log.c:126-236 | in every state that keeps the reservation invariant, an operation with budget left never finds the log full |
| `LogSystem.AbsorptionCanBeRefused` | kernel/log.c:215-236 | counterexample by a run: three operations fill the log, and then no write of a block that is already logged is possible, whatever the operation and the data; log_write panics |
| `LogSystem.StepSafe` | kernel/log.c:126-236 | every step of begin, taking, changing and releasing blocks, recycling buffers, write, end, commit, panic, power loss and recovery keeps the reservation, buffer-count and crash-safety invariant |
| `LogSystem.AlwaysRecoverable` | kernel/log.c:117-124 | in every state that keeps the invariant, recovering the disk as it is gives the durable contents |
| `LogSystem.RunIsCrashSafe` | kernel/log.c:126-236 | the invariant holds in every state of every run, with crashes between any two block writes, states stuck in a panic and blocks changed without being logged included; recovery gives the durable contents |
| `LogSystem.DurableIsWholeOperations` | kernel/log.c:147-204 | the durable contents change only at a header write with no operation active, in the logged blocks, to what whole operations left there; they are then what operations see if and only if nothing else had been changed |
| `LogSystem.LoggedChangesOnly` | kernel/log.c:126-236 | every step, absorbed writes, panics, crashes and recovery included, keeps that operations see durable contents in every block that is not logged, unless it changes a block and leaves it unlogged |
| `LogSystem.ChangeExactly` | kernel/fs.c:464-467 | a change breaks this if and only if the block is not logged and gets other contents than the durable ones |
| `LogSystem.CommitsWhatIsSeen` | kernel/log.c:126-236 | in every state of every run whose changes are logged, operations see durable contents in every block that is not logged, and each commit makes durable exactly what they see |
| `LogSystem.CommitLeaves` | kernel/log.c:178-204 | no block write of a commit touches a home block that is not logged |
| `LogSystem.CommitNeverStuck` | kernel/log.c:194-204 | when only the pins occupy buffers and fewer than NBUF blocks are logged, every block write of the commit can be taken |
| `LogSystem.CommitStepExactly` | kernel/log.c:178-204 | a commit that need not wait for a block takes its next block write if and only if a buffer is spare, and panics if and only if none is |
| `LogSystem.FirstWriteExactly` | kernel/log.c:178-204 | when only pins occupy buffers, the first block write is possible if and only if fewer than NBUF blocks are logged, and the step is the panic if and only if NBUF are |
| `LogSystem.FullLogPanics` | kernel/log.c:147-204 | a run of three operations whose commit panics; the disk stays recoverable to what was durable |
| `LogSystem.SpareOfCache` | kernel/bio.c:58-89 | the buffers counted here are the spare buffers of the cache |
| `Sv39.EntryRoundTrip` | kernel/riscv.h:364-369 | an entry gives back the page-aligned address and the flags it was made from |
| `Sv39.IndicesDetermineThePage` | kernel/riscv.h:371-374 | the three 9-bit indices determine a page-aligned address |
| `Sv39.IndicesAreDigits` | kernel/riscv.h:371-374 | the shifts and masks of PX give the digits of the page number to base 512, and the page number is the address divided by the page size |
| `Sv39.DescentIsLookup` | kernel/vm.c:97-115 | descending from the root by the three indices of an address is the look-up of its page in the page-table model |
| `Sv39.NineBits` | kernel/riscv.h:371-374 | shifting a word by nine bits divides its number by 512, masking nine bits takes the remainder |
| `Sv39.BelowMaxva` | kernel/riscv.h:376-380 | addresses below MAXVA use the lower half of the root table only |
| `Sv39.ClearUser` | kernel/vm.c:328-337 | clearing the user bit keeps the address and every other flag |
| `Sv39.DecodeEntry` | kernel/vm.c:163-167 | the word that mappages writes decodes to a valid entry with that frame and those permissions |
| `Sv39.DecodeTable` | kernel/vm.c:108-111 | the word that walk writes decodes to a table entry |
| `Sv39.DecodeClear` | kernel/vm.c:328-337 | uvmclear on the word closes the decoded entry to user code and changes nothing else of it |
| `Sv39.DecodeLeaf` | kernel/vm.c:267-275 | freewalk's test on the word tells leaves from tables |
| `PhysMem.Frames.constructor` | kernel/kalloc.c:26-31 | before kinit every frame is the kernel's and none is free |
| `PhysMem.Frames.Freerange` | kernel/kalloc.c:33-40 | afterwards exactly the frames of the allocator's range are free, each once on the list |
| `PhysMem.Frames.Kalloc` | kernel/kalloc.c:68-82 | takes the head of the free list, or fails exactly when it is empty; the list stays well-formed and lists exactly the free frames |
| `PhysMem.Frames.Kfree` | kernel/kalloc.c:46-63 | a frame in the kernel's hands becomes free and heads the list; a frame below the allocator's range is refused and nothing changes |
| `PhysMem.Frames.Zero` | kernel/vm.c:108-111 | a frame in the kernel's hands becomes an empty table of zero bytes, no other frame changes |
| `PhysMem.Frames.Fill` | kernel/vm.c:311-313 | a frame in the kernel's hands gets the given bytes, no other frame changes |
| `PageTable.SetLeaf` | kernel/vm.c:163-167 | writing a leaf for a kernel frame keeps the ownership invariant: every table and page frame hangs in exactly one place |
| `PageTable.LookupOfPut` | kernel/vm.c:163-167 | writing a leaf entry changes the map of that page of that address space and nothing else |
| `PageTable.AddMidSameMaps` | kernel/vm.c:103-113 | hanging a new middle table changes no page of any address space |
| `PageTable.AddLowSameMaps` | kernel/vm.c:103-113 | hanging a new low table changes no page of any address space |
| `PageTable.ClearLeaf` | kernel/vm.c:202-210 | clearing a leaf hands exactly that page's frame back to the kernel and keeps the invariant |
| `PageTable.Detach` | kernel/vm.c:262-278 | an address space without leaves can be taken out of use: nothing else refers to its tables |
| `Vm.Walk` | kernel/vm.c:97-115 | returns the low table of the page, creating tables on request; no page of any address space changes; fails only without memory, or without permission to allocate if the table is missing |
| `Vm.Mappages` | kernel/vm.c:145-174 | adds exactly the pages of the range with consecutive frames, or a prefix of them when memory for a table runs out; every other page and frame is kept; it fails only with fewer free frames than two for every page |
| `Vm.Walkaddr` | kernel/vm.c:120-138 | the frame of a mapped user page, 0 for every other page, with no change |
| `Vm.Find` | kernel/vm.c:97-115 | walk without allocation finds the low table if and only if it exists |
| `Vm.Ismapped` | kernel/vm.c:475-486 | true exactly when the page has a valid entry |
| `Vm.Uvmunmap` | kernel/vm.c:192-212 | removes exactly the pages of the range, freeing each ordinary page's frame once; missing pages are skipped; every other page and frame is kept |
| `Vm.ClearOne` | kernel/vm.c:204-210 | one entry cleared and its frame freed, except for the two special pages |
| `Vm.MapFresh` | kernel/vm.c:227-237 | a new page in a fresh frame with given contents, or no page mapped and the frame given back; it fails only with fewer than three free frames |
| `Vm.DenseBound` | kernel/kalloc.c:26-40 | an address space whose first n pages are mapped has n frames, so n is at most the number of frames |
| `Vm.Uvmalloc` | kernel/vm.c:216-240 | new zeroed pages exactly in the grown range; on failure all of them are unmapped again and 0 is returned; a process without holes may ask for any size and fails above TRAPFRAME; it fails only with fewer free frames than three for every page asked for |
| `Vm.Uvmdealloc` | kernel/vm.c:246-258 | unmaps exactly the pages between the two rounded sizes, or nothing when not shrinking |
| `VmFree.Uvmcreate` | kernel/vm.c:178-187 | an address space without pages, or nothing taken when no frame is free |
| `VmFree.Freewalk` | kernel/vm.c:262-278 | frees exactly the tables below a position, each once; its panic is out of reach when no leaf is left |
| `VmFree.FreeTables` | kernel/vm.c:262-278 | from the root: all tables of the address space become free, every other address space maps what it did |
| `VmFree.Uvmfree` | kernel/vm.c:282-288 | all pages and tables of the address space become free, no other frame changes |
| `UserMemory.Vmfault` | kernel/vm.c:452-473 | maps a zeroed page only for an address below the size whose page is not mapped, and changes no address space's view; 0 only if the address is out of range, the page mapped or memory out |
| `UserMemory.Reach` | kernel/vm.c:353-358 | a page's frame, faulted in if needed; failing only if user code could not read the page, or memory is out |
| `UserMemory.Copyin` | kernel/vm.c:380-403 | the bytes that user code sees, stopping at the first byte it cannot see, at the start or on a page boundary; no view of any address space changes |
| `UserMemory.Store` | kernel/vm.c:365-368 | storing into one page changes these bytes of this address space's view and nothing else |
| `UserMemory.Copyout` | kernel/vm.c:342-375 | exactly the copied prefix changes in this address space's view and nothing in any other; it stops only at a byte that is not writable, or without memory; over mapped pages it takes no fault |
| `UserMemory.Uvmcopy` | kernel/vm.c:296-324 | on success the copy has the same pages, permissions and bytes in frames of its own; on failure it has no pages left and only table frames are lost; the original is untouched; it fails only with fewer free frames than three for every page |
| `UserMemory.CopySeesTheSame` | kernel/vm.c:296-324 | after a successful copy both address spaces show the same bytes, lazily allocated ones included |
| `UserMemory.FaultSameView` | kernel/vm.c:452-473 | filling in a lazily allocated page cannot be seen |
| `AddressSpace.ProcPagetable` | kernel/proc.c:144-167 | an address space with exactly the trampoline and trapframe pages, or 0 with every frame back in its old use; 0 only with fewer than five free frames; the trampoline can be executed and the trapframe written, both by the kernel only |
| `AddressSpace.ProcFreepagetable` | kernel/proc.c:169-175 | all frames of the address space become free, the two shared pages' frames do not |
| `AddressSpace.Growproc` | kernel/proc.c:192-209 | old bytes kept, new bytes zero, bytes above out of reach; failure changes nothing that can be seen; a shrink below zero wraps and leaves the size; it fails only above TRAPFRAME or with fewer free frames than three for every new page |
| `AddressSpace.Sbrk` | kernel/sysproc.c:39-65 | eager and lazy growth have the same visible effect; lazy growth only moves the size and fails exactly above TRAPFRAME; eager growth fails only above TRAPFRAME or with fewer free frames than three for every new page |
| `AddressSpace.Allocproc` | kernel/proc.c:105-116 | a trapframe page and an address space, or nothing taken; nothing only with fewer than six free frames; its two special pages are closed to user code |
| `AddressSpace.Freeproc` | kernel/proc.c:125-142 | exactly the trapframe page and the frames of the address space become free |
| `AddressSpace.Kfork` | kernel/proc.c:211-226 | a child that shows the parent's bytes in frames of its own, or every frame, tables included, back in its old use; it fails only with fewer free frames than six and three for every page; user code may write and execute the same pages in both, and the child's special pages are closed to it |
| `ExecImage.Uvmclear` | kernel/vm.c:328-337 | closes one page to user code and changes nothing else |
| `ExecImage.Loadseg` | kernel/exec.c:154-173 | the segment's bytes are in place if the file has them; its panic is out of reach |
| `ExecImage.LoadOne` | kernel/exec.c:60-75 | one program header, whatever its numbers: the header checks, growth and loading extend the image to the larger of the old size and the segment's end; it fails only for a header or file that is refused, for no size at address 0, or with fewer free frames than three for every new page; the new pages are readable by user code, and executable or writable exactly if the header's flags say so |
| `ExecImage.LoadImage` | kernel/exec.c:58-76 | memory below the size equals the image: the last segment covering an address, else zero; the size is the end of the segments; it fails only if the program is refused or with fewer free frames than three for every page; every page has the permissions of the flags of the segment that it was made for |
| `ExecImage.EveryPageMadeFor` | kernel/exec.c:58-76 | every page of the image was made for exactly one segment, the first to reach it |
| `ExecImage.ImageFits` | kernel/exec.c:58-90 | an image without holes has fewer pages than there are frames, which keeps it and the stack below the special pages though nothing checks it |
| `ExecArgs.PushStrings` | kernel/exec.c:96-108 | every string with its terminator is on the stack at its recorded address, below the previous one; fails exactly when they do not fit the page; no fault is taken |
| `ExecArgs.PushArgs` | kernel/exec.c:96-117 | strings and null-terminated pointer array inside the stack page, or failure exactly when they do not fit; nothing outside the page changes |
| `ExecArgs.PushBytes` | kernel/exec.c:105-116 | copyout into the new stack page succeeds and takes no fault, so the running process's table is not involved |
| `ExecArgs.PiecesDisjoint` | kernel/exec.c:98-114 | strings and pointer array are disjoint and 16-byte aligned |
| `ExecArgs.ArgvRoundTrip` | kernel/exec.c:96-122 | loading pointer j from the new stack and reading the string there gives argument j; the pointer after the last is null |
| `ExecArgs.StringIsUnique` | kernel/exec.c:101-107 | memory holds at most one zero-terminated string at an address |
| `Exec.MakeStack` | kernel/exec.c:84-94 | two pages on top of the image, the lower out of user code's reach, the upper a zeroed writable stack; it fails only with fewer than six free frames; user code can read and write the stack, not execute it |
| `Exec.BuildImage` | kernel/exec.c:58-117 | image, guard page, stack and arguments complete, or a well-formed partial address space to free; success only if the program is not refused and the arguments fit, failure only if one of them is so or memory is short; pages have the permissions of their segments |
| `Exec.Kexec` | kernel/exec.c:55-148 | for any segment headers: either the process has the new image and exactly the old image's frames are free, or every frame has its old use; it succeeds only if no header or file is refused and the arguments fit into the stack page, and fails only if one of them is so or with fewer free frames than five and three for every page of image and stack; in the new image every page has the permissions of its segment's flags, the guard page is closed to user code, the stack can be read and written but not executed, and trampoline and trapframe are closed to user code |
| `Processes.Table.constructor` | kernel/proc.c:38-49 | no processes, and the books of the physical memory balance |
| `Processes.Table.Spawn` | kernel/proc.c:87-123 | a new process, or nothing taken; no other process sees a change; it fails only with fewer than six free frames |
| `Processes.Table.Fork` | kernel/proc.c:211-226 | the child sees the parent's bytes; no other process sees a change; failure restores every frame; it fails only with fewer free frames than six and three for every page |
| `Processes.Table.Grow` | kernel/sysproc.c:39-65 | sbrk keeps all leaves below the size and no other process sees a change; it fails only above TRAPFRAME or, when eager, for want of frames |
| `Processes.Table.Fault` | kernel/vm.c:452-473 | a page fault cannot be seen by any process |
| `Processes.Table.Store` | kernel/vm.c:342-375 | storing into one process's memory is seen by that process only |
| `Processes.Table.Execute` | kernel/exec.c:55-148 | exec swaps page tables, keeps the trapframe page, and no other process sees a change; it fails only if the program is refused, the arguments do not fit, or for want of frames; the pages of the new image have the permissions of their segments |
| `Processes.Table.Free` | kernel/proc.c:125-142 | exactly this process's frames become free |
| `Processes.NoLeak` | kernel/proc.c:125-175 | when the last process is gone, every frame that no other part of the kernel holds is free |
| `Processes.StepKeeps` | kernel/proc.c:87-249 | every act of every process, done by single updates of memory, keeps all page tables in order, the books of all frames and what every process sees that it is not about |
| `PhysMem.EditKeeps` | kernel/vm.c:97-278 | every single update, a frame reused, a page written, a table hung, a leaf set or cleared, a root begun or ended, keeps every frame hanging in exactly one place |
| `PhysMem.ReachedKeeps` | kernel/vm.c:97-278 | so does any sequence of them |
| `Processes.RunsAreGood` | kernel/proc.c:87-249 | the books balance in every state of every run |
| `Processes.FramesAreConserved` | kernel/proc.c:87-249 | in every state of every run each frame is free, held elsewhere in the kernel, one process's trapframe, or in one place of one process; each process lies within its size; its trampoline and trapframe pages are closed to user code, with the kernel's permissions |
| `Processes.FramesComeBack` | kernel/proc.c:125-175 | a run from no processes to no processes gives every frame back |
| `Processes.IsolationOverRuns` | kernel/vm.c:296-403 | over every run of spawn, fork, growth, fault, store, exec and end, a process that no act is about keeps its size and sees the same bytes |
| `ProcInv.StepKeeps` | kernel/proc.c:251-446 | every step of every process, scheduler and interrupt handler keeps: locks are owned exactly as code positions say, one CPU per process, states fit code positions and places, handlers run only where no lock is held, children under creation have one creator |
| `ProcInv.OneHolder` | kernel/spinlock.c:22-72 | no two CPUs are at positions that hold the same lock |
| `ProcWait.StepFamily` | kernel/proc.c:251-446 | every step keeps: wakeup has missed no waiter, exiting processes have no children and woken parents, kwait has missed no zombie |
| `ProcWait.Woken` | kernel/proc.c:434-446 | a process that wakeup looks at with its lock held does not wait on the channel afterwards |
| `ProcWait.SleepFamily` | kernel/proc.c:420-432 | going to sleep keeps the invariant because the condition's lock is held until p->lock is taken |
| `ProcTheorems.RunsAreGood` | kernel/proc.c:251-446 | the invariants hold in every state of every interleaving from boot, interrupt handlers on idle and busy CPUs included |
| `ProcTheorems.HandOff` | kernel/proc.c:335-387 | while p->lock is free, p is RUNNING exactly when a CPU has it as its process, and that CPU is executing it or a handler over it |
| `ProcTheorems.OneCpu` | kernel/proc.c:335-361 | at most one CPU has a process as its process |
| `ProcTheorems.LocksAreUsedWell` | kernel/spinlock.c:22-72 | a lock about to be released is held by this CPU, one about to be acquired is not: the panics of acquire and release are out of reach |
| `ProcTheorems.SchedIsSafe` | kernel/proc.c:363-377 | at every switch the CPU holds p->lock and no other lock and p is not RUNNING: the panics of sched are out of reach |
| `ProcTheorems.StateChanges` | kernel/proc.c:87-446 | every change of a process's state: its creator takes the slot and is its parent when it lets it run, a scheduler runs only what is RUNNABLE, only the process itself goes to sleep, aside or ends, a sleeper is woken only on its channel or by kill, only the parent frees it |
| `ProcTheorems.NoLostWakeup` | kernel/proc.c:420-446 | when wakeup(chan) returns to a caller that held lk throughout, no process is left waiting in sleep(chan, lk) |
| `ProcTheorems.NoLostWakeupInHandler` | kernel/trap.c:165-173 | when wakeup(chan) in an interrupt handler is through, on an idle CPU or over any process, no process is left waiting in sleep(chan, lk) for the lock that the handler holds |
| `ProcTheorems.HandlerLocksAreUsedWell` | kernel/virtio_disk.c:294-327 | an interrupt handler acquires no lock that its CPU holds and releases only what it holds |
| `ProcIrq.DutyKept` | kernel/proc.c:420-446 | no step of a process or scheduler makes a handler's wakeup miss a waiter: nobody else goes to sleep under the handler's lock |
| `ProcIrq.HandlerDuty` | kernel/proc.c:434-446 | no step of a handler does either: a process looked at with its lock held does not wait afterwards |
| `ProcInv.HandlerKeeps` | kernel/trap.c:165-173 | a handler's steps keep ownership of locks, states and places; a process it finds asleep is off every CPU |
| `ProcTheorems.SleepersWait` | kernel/proc.c:420-432 | a SLEEPING process is recorded as waiting on its own channel and lock |
| `ProcTheorems.AwakeOnNoChannel` | kernel/proc.c:420-432 | a process outside sleep is on no channel |
| `ProcTheorems.NobodyMissesAZombie` | kernel/proc.c:263-333 | while wait_lock is free, no process asleep in kwait has a ZOMBIE child |
| `ProcTheorems.ChildlessDoNotWait` | kernel/proc.c:326-330 | kwait ends its scan with nothing to wait for if and only if no process has the caller as its parent, and goes on to sleep, if not killed, if and only if one has |
| `ProcTheorems.SleepersHaveChildren` | kernel/proc.c:304-331 | in every state of every interleaving a process on its way to sleep in kwait, or asleep there, has a child |
| `ProcTheorems.ParentsChange` | kernel/proc.c:211-324 | a process gets its creator as its parent; after that only a step of its parent changes that, to init when the parent exits and to none when it reaps it dead |
| `ProcKids.StepKids` | kernel/proc.c:211-446 | every step keeps: kwait's flag says whether it has come by a child, it locks only children, only it takes its children away, a slot has no parent until fork names one, and the channel is set only while asleep |
| `ProcTheorems.NoOrphans` | kernel/proc.c:251-295 | no process has a ZOMBIE, free or half-made process as its parent |
| `ProcTheorems.ReapedIsOff` | kernel/proc.c:306-322 | kwait frees a slot only when its process is off every CPU |
| `Spinlock.StepKeeps` | kernel/spinlock.c:22-113 | every micro-step of acquire, release, push_off and pop_off keeps the lock and interrupt invariant |
| `Spinlock.RunsAreSafe` | kernel/spinlock.c:22-113 | the invariant holds in every state of every run |
| `Spinlock.MutualExclusion` | kernel/spinlock.c:22-72 | at most one CPU has won a lock, and its interrupts are off |
| `Spinlock.TakenIsWon` | kernel/spinlock.c:22-72 | in every state that keeps the invariant a lock is marked as taken if and only if some CPU has won it |
| `Spinlock.FreeCanBeWon` | kernel/spinlock.c:22-45 | a CPU that tries for a lock can win it with its next swap if and only if no CPU has it |
| `Spinlock.HoldingIsExact` | kernel/spinlock.c:76-82 | holding is exact for the asking CPU even if others move between its two reads |
| `Spinlock.PopIsSafe` | kernel/spinlock.c:102-113 | the panics of pop_off are out of reach, and the outermost pop returns to the interrupt state noted first or brought by the thread switched to |
| `FsBlocks.SlotsAreDistinct` | kernel/fs.c:332-369 | no two nonzero block pointers of any files are equal |
| `FsBlocks.SlotsAreGood` | kernel/fs.c:332-369 | every block pointer is in range, allocated, and not a table |
| `Fs.SetBit` | kernel/fs.c:81-83 | setting a bit of the bitmap byte marks exactly that block |
| `Fs.ClearBit` | kernel/fs.c:103-108 | clearing a bit unmarks exactly that block |
| `Fs.FileSystem.constructor` | kernel/fs.c:47-54 | the state after mounting a disk whose bitmap marks exactly the blocks in use |
| `Fs.FileSystem.Balloc` | kernel/fs.c:57-94 | the lowest free block, zeroed and marked, or 0 exactly when none is free; no file changes; the bitmap block and the zeroed block are logged, and nothing else |
| `Fs.FileSystem.Bfree` | kernel/fs.c:97-111 | the block becomes free; its panic is out of reach; the bitmap block that changes is logged, and nothing else |
| `Fs.FileSystem.Iupdate` | kernel/fs.c:154-174 | the inode in memory goes into its block, which is logged |
| `Fs.FileSystem.AllocSlot` | kernel/fs.c:338-366 | a zeroed block becomes block bn of the file, or the disk is full; no file reads differently; logs all it changes |
| `Fs.FileSystem.AllocTable` | kernel/fs.c:350-355 | a zeroed block becomes the file's indirect table; no file reads differently; logs all it changes |
| `Fs.FileSystem.Bmap` | kernel/fs.c:332-369 | the block for a file offset, allocated if missing; 0 only on a full disk; no file's bytes or size change; every bitmap block, data block and table that changes is logged, and nothing but bitmap blocks, that block and the table, nothing at all if the block exists |
| `Fs.FileSystem.Readi` | kernel/fs.c:413-441 | exactly the file's bytes up to its size; -1 exactly when they run into the first page of the caller that cannot be written, and the caller has then received the bytes before it; short only in a hole on a full disk; no file changes, and reading a file without holes changes nothing at all; what does change in a hole is logged, up to the inode |
| `Fs.FileSystem.Writei` | kernel/fs.c:444-475 | -1 exactly for the checked ranges; the counted bytes and, if a copy fails, the further bytes before the first unreadable page replace the old ones, the size grows to the end of the counted ones, every other byte of every file is kept; stops only at the end, after whole blocks in a hole on a full disk, or in the block of the first unreadable byte; files without holes stay so; everything that changes is logged except the data in the block of a failed copy: every block written in full, tables, bitmap blocks, and the inode, which is written back; nothing else is logged, no block of any other file, and not the block of a failed copy if it was there before |
| `Fs.FileSystem.WriteBlocks` | kernel/fs.c:458-470 | the write loop, block by block, with the same effect on files and the same blocks logged, up to the inode |
| `Fs.FileSystem.FailedCopyWrites` | kernel/fs.c:464-467 | an input: 20 bytes of which 10 can be read; writei returns 0, the 10 bytes are in the file, and their block is not logged |
| `Fs.FailedNotLogged` | kernel/fs.c:464-468 | a block that a write did not complete, and that was the file's before, is not logged by it |
| `Fs.KeptPastCount` | kernel/fs.c:464-467 | after a failed copy the bytes past the count are kept if and only if none was copied or the copied ones were there already |
| `Fs.CopiedBefore` | kernel/vm.c:380-403 | copying page by page gets through exactly the bytes before the first page that cannot be used |
| `Fs.WriteFitsBudget` | kernel/file.c:153-165 | one writei of filewrite logs at most six blocks and the bitmap blocks, which is within MAXOPBLOCKS for a bitmap of up to four blocks |
| `Fs.FileSystem.FreeDirect` | kernel/fs.c:378-383 | exactly the direct blocks become free; the bitmap blocks that change are logged |
| `Fs.FileSystem.FreeIndirect` | kernel/fs.c:384-392 | exactly the blocks in the table and the table become free; the bitmap blocks that change are logged |
| `Fs.FileSystem.Itrunc` | kernel/fs.c:371-395 | exactly this file's blocks become free, the file is empty, no other file changes, no hole appears; the inode is written back, and exactly it and bitmap blocks, all that change, are logged |
| `Fs.WriteIsOverlay` | kernel/fs.c:444-475 | writei on the file's contents is the splice of a plain file write |
| `Fs.WriteKeepsOthers` | kernel/fs.c:444-475 | writei leaves the contents of every other file alone |
| `Fs.ReadIsSlice` | kernel/fs.c:413-441 | readi returns a slice of the contents |
| `Fs.SlotsStay` | kernel/fs.c:332-369 | when only one file gets blocks, no block of any file moves or goes |
| `Mkfs.Image.constructor` | mkfs/mkfs.c:92-117 | a zeroed image with only metadata blocks in use, and inode 1 next |
| `Mkfs.Image.Ialloc` | mkfs/mkfs.c:186-234 | one more empty inode, in the inode blocks, then in the bitmap block, then over the bytes of a data block; gives up exactly past the end of the image |
| `Mkfs.BytesOverwritten` | mkfs/mkfs.c:186-198 | an inode that lies in the first block of a file replaces that file's bytes |
| `Mkfs.Image.NextBlock` | mkfs/mkfs.c:270-284 | the next free block inside the image becomes the file's block bn, its other blocks stay |
| `Mkfs.Image.NextTable` | mkfs/mkfs.c:276-278 | the next free block inside the image becomes the file's indirect table |
| `Mkfs.Image.BlockFor` | mkfs/mkfs.c:268-288 | the block for a file offset, taken in order if missing; fails exactly when a block past the image would be needed, which rsect cannot read |
| `Mkfs.Image.AppendBytes` | mkfs/mkfs.c:264-293 | the loop of iappend: the bytes follow the file's old contents; gives up exactly when the file gets too long or the image has too few blocks left |
| `Mkfs.Image.Iappend` | mkfs/mkfs.c:254-296 | the bytes follow the file's old contents and no other file changes, inode on disk included; gives up exactly when the file gets too long or the image has too few blocks left; every file keeps exactly the blocks its size needs; with inodes past the bitmap block no block past the image is used, the rest is open |
| `Mkfs.Image.Stray` | mkfs/mkfs.c:186-212 | what an inode read back from a block of files may lead to: any contents, but no block past the image |
| `Mkfs.Image.FixRootSize` | mkfs/mkfs.c:165-170 | rounding up the root directory's size leaves no hole if and only if the size was not a multiple of BSIZE, and none in any other file |
| `Mkfs.Image.Balloc` | mkfs/mkfs.c:236-250 | the bitmap marks exactly the blocks in use and is written over the inodes from number 208 on: the image holds every inode, and also satisfies the kernel's invariant, if and only if all inode numbers are below ninodeblocks * IPB |
| `Mkfs.Image.Marks` | mkfs/mkfs.c:244-247 | the loop over the bitmap: exactly the first blocks are marked |
| `Mkfs.FirstIsLost` | mkfs/mkfs.c:236-250 | the first inode in the bitmap block gets a kind that is none |
| `Mkfs.SnugNeeded` | mkfs/mkfs.c:264-284 | the blocks that growing a file takes are the difference of what its two sizes take |
| `MkfsImage.AppendFile` | mkfs/mkfs.c:158-159 | up to inode 223, copying a file in block by block gives its bytes and changes no other file, and succeeds exactly if the file is not too long and fits |
| `MkfsImage.AddFile` | mkfs/mkfs.c:130-162 | one file, up to inode 223: its entry ends the root directory, its bytes are in the new inode, every other file is as before; succeeds exactly if the name has no slash, name and size are within limits and the blocks suffice |
| `MkfsImage.MakeRoot` | mkfs/mkfs.c:117-128 | the root directory is inode 1, lists itself twice and starts in the first block after the metadata |
| `MkfsImage.MakeImage` | mkfs/mkfs.c:69-175 | up to 222 files mkfs succeeds if and only if no name has a slash and all names and files are short enough and fit; the image then holds every file's bytes without holes, the root directory lists them all in order and has a hole if and only if its entries fill whole blocks, and block ownership and bitmap satisfy the kernel's invariant; for any number of files the inodes are all on the image if and only if there are at most 206 |
| `MkfsImage.Populate` | mkfs/mkfs.c:117-163 | the image before the last fix: all files and the listing in place, every file with exactly the blocks it needs |
| `MkfsImage.ReadBack` | kernel/fs.c:413-441 | mounting a good image from the inodes on it and reading any file gives the bytes that mkfs was given |
| `MkfsImage.RootLost` | mkfs/mkfs.c:186-234 | an input: the inode of the 223rd file replaces the first four entries of the root directory |
| `MkfsImage.RootHasAHole` | mkfs/mkfs.c:165-170 | an input: with 62 empty files all inodes are there and the root directory has a hole |
| `MkfsImage.ManyFiles` | mkfs/mkfs.c:222-250 | an input: with 207 empty files mkfs succeeds and the image lacks an inode |
| `Virtio.ChainsPartition` | kernel/virtio_disk.c:155-213 | between stretches every descriptor is free or part of a request in flight, not both, and of one request at one place only |
| `Virtio.SubmitRingOk` | kernel/virtio_disk.c:271-277 | the avail ring has room: no unconsumed entry is overwritten, across 16-bit wrap of the index |
| `Virtio.CompleteRingOk` | kernel/virtio_disk.c:309-324 | the used ring has room for every completion |
| `Virtio.StepKeeps` | kernel/virtio_disk.c:155-327 | every step of driver and device keeps descriptors, chains and rings in order, with no descriptor in the driver's hands |
| `Virtio.OwnOverRuns` | kernel/virtio_disk.c:215-327 | after a submission, until it is finished, whatever driver and device do, the head carries that request, and a done request was completed by the device since |
| `Virtio.ReturnsAfterOwnRequest` | kernel/virtio_disk.c:283-291 | over any run from its submission, virtio_disk_rw can go on exactly when its buffer's flag is down, and then the device has completed its own request |
| `Virtio.Disk.constructor` | kernel/virtio_disk.c:61-153 | all descriptors free, no request in flight |
| `Virtio.Disk.AllocDesc` | kernel/virtio_disk.c:156-166 | the lowest free descriptor, or -1 exactly when none is free |
| `Virtio.Disk.FreeDesc` | kernel/virtio_disk.c:169-182 | the descriptor becomes free; its panics are out of reach |
| `Virtio.Disk.FreeChain` | kernel/virtio_disk.c:184-197 | frees exactly the three descriptors of the chain |
| `Virtio.Disk.Alloc3Desc` | kernel/virtio_disk.c:201-213 | three distinct descriptors, or nothing taken exactly when fewer than three are free |
| `Virtio.Disk.Submit` | kernel/virtio_disk.c:215-281 | waits exactly when fewer than three descriptors are free; else exactly three leave the free ones, and the device, following the chain from its head, finds this request, queued last; it asks for the sectors of that block; keeps that nobody sleeps for descriptors while three are free, or for a request that is done |
| `Virtio.CoversItsBlock` | kernel/virtio_disk.c:217-256 | following the chain, the device transfers exactly the bytes of the block whose number is the given one modulo 2^31, which is the given one if and only if it is below 2^31 |
| `Virtio.RequestsApart` | kernel/virtio_disk.c:217-256 | two requests share a byte of the disk if and only if their block numbers agree in the low 31 bits |
| `Virtio.Disk.Enqueue` | kernel/virtio_disk.c:238-277 | formatting and queueing one request: the whole new state of descriptors, uses and ring |
| `Virtio.Disk.Announce` | kernel/virtio_disk.c:261-277 | the request is recorded and the head goes behind the queued ones |
| `Virtio.Disk.DeviceTakes` | kernel/virtio_disk.c:271-281 | the device fetches queued chains in order, finding the queue empty exactly when the indices agree |
| `Virtio.Disk.DeviceCompletes` | kernel/virtio_disk.c:309-317 | a fetched chain enters the used ring once, with status 0, and nothing else changes |
| `Virtio.Disk.SeeOne` | kernel/virtio_disk.c:312-323 | one completion: its buffer's flag goes down and nothing else changes; the status panic is out of reach; whoever sleeps on the buffer is woken |
| `Virtio.Disk.Intr` | kernel/virtio_disk.c:294-327 | a run of such turns after which no completion is left: exactly the completed requests are seen |
| `Virtio.Disk.Finish` | kernel/virtio_disk.c:283-291 | a request whose buffer's flag is down has been completed, and exactly its descriptors become free; whoever waits for descriptors is woken |
| `Virtio.Disk.TryFinish` | kernel/virtio_disk.c:283-286 | goes to sleep on the buffer exactly if its flag is up |
| `Pipe.Counters` | kernel/pipe.c:88-129 | the 32-bit counters select the right cells and tell full from empty across wrap |
| `Pipe.PipeBuffer.constructor` | kernel/pipe.c:33-37 | an empty pipe with both ends open |
| `Pipe.PipeBuffer.WriteStretch` | kernel/pipe.c:76-103 | appends exactly the next bytes of the caller, up to the byte before which the killed flag is found set and the one that cannot be copied in; sleeps only on a full pipe; afterwards nobody sleeps on the pipe who could go on, if and only if no reader slept or the writer did not find itself killed after writing something |
| `Pipe.KilledWriterStrands` | kernel/pipe.c:83-87 | an input: a reader sleeps, a writer is killed after its first byte; the byte is there and the reader sleeps on |
| `Pipe.PipeBuffer.CopyIn` | kernel/pipe.c:83-99 | the loop of pipewrite up to where it sleeps or ends, with the same effect on the bytes |
| `Pipe.PipeBuffer.ReadStretch` | kernel/pipe.c:105-134 | delivers the oldest bytes in order, exactly those before the first that cannot be copied out, as many as there are and were asked for; sleeps only on an empty pipe with a writer; -1 exactly when the first byte cannot be copied out; keeps that nobody sleeps on the pipe who could go on |
| `Pipe.PipeBuffer.CopyOut` | kernel/pipe.c:120-130 | the copying loop: delivered bytes stay a prefix of accepted bytes, and their number is determined; a byte that could not be copied stays next; -1 exactly when that is the first |
| `Pipe.PipeBuffer.Shift` | kernel/pipe.c:123-129 | the oldest byte leaves the ring |
| `Pipe.PipeBuffer.Close` | kernel/pipe.c:58-74 | the page is freed exactly when the second end closes; whoever waits for the closed end is woken |
| `FileTable.Files.constructor` | kernel/file.c:17-26 | no open files; all inode references are held elsewhere |
| `FileTable.Files.Iget` | kernel/fs.c:181-237 | one more reference to an inode, held outside the file table |
| `FileTable.Files.Iput` | kernel/fs.c:280-301 | one such reference fewer |
| `FileTable.Files.Filealloc` | kernel/file.c:29-44 | a free entry gets one reference and had no type; -1 exactly when none is free |
| `FileTable.Files.Fileclose` | kernel/file.c:59-83 | one reference fewer; the last one frees the entry and releases exactly the pipe end or inode reference it owned |
| `FileTable.Files.FindSlot` | kernel/sysfile.c:45-50 | the lowest empty descriptor, or -1 exactly when all are used |
| `FileTable.Files.Fdalloc` | kernel/sysfile.c:39-52 | takes over the caller's reference into an empty slot, or changes nothing exactly when all slots are used |
| `FileTable.Files.Dup` | kernel/sysfile.c:54-66 | one more slot and one more reference, or nothing exactly when all slots are used; counts stay exact though the slot is filled first |
| `FileTable.Files.Close` | kernel/sysfile.c:97-108 | empties the slot and drops its reference; no other file entry changes; afterwards the open ends of pipes are exactly those that a remaining descriptor refers to |
| `FileTable.Files.CloseAll` | kernel/proc.c:271-277 | all slots of the process are empty, every other slot is kept, counts stay exact; the open ends of pipes are exactly those that descriptors of other processes refer to |
| `FileTable.Files.DupAll` | kernel/proc.c:230-232 | the child's slots equal the parent's, with one more reference each |
| `FileTable.Files.DupOne` | kernel/proc.c:230-232 | one slot copied with one more reference |
| `FileTable.Files.NewDescriptor` | kernel/sysfile.c:344-350 | an entry and a slot for it, or everything as before exactly when there is no free entry or no empty slot |
| `FileTable.Files.OpenInode` | kernel/sysfile.c:344-361 | the inode reference passes to the file, or exactly it is dropped, when there is no free entry or no empty slot |
| `FileTable.Files.Pipealloc` | kernel/pipe.c:22-56 | both ends of a new pipe, or everything as before exactly when two entries or the page cannot be had |
| `FileTable.Files.MakePipe` | kernel/sysfile.c:477-505 | two descriptors for the two ends, or every entry, slot and inode as before with the new pipe closed, exactly when entries, page, slots or the copy to the user fail |
| `FileTable.Files.TakeBack` | kernel/sysfile.c:489-499 | the error paths empty exactly the slots they filled |
| `FileTable.Files.CloseBoth` | kernel/sysfile.c:491-502 | the error paths close exactly the new pipe |
| `FileTable.ClosedKeeps` | kernel/file.c:64-83 | counts, types and pipe ends stay exact when the last reference goes, and the end being closed was open |
| `FileTable.OpenIsReferred` | kernel/file.c:59-83 | between system calls an end of a pipe is open if and only if some descriptor refers to it |
| `FileIo.OverlayTwice` | mlibc/options/ansi/generic/file-io.cpp:369-379 | two writes one after the other are one longer write |
| `FileIo.FindNewline` | mlibc/options/ansi/generic/file-io.cpp:210-218 | the first newline within the chunk |
| `FileIo.Stream.constructor` | mlibc/options/ansi/generic/file-io.cpp:58-73 | an empty buffer at the start of the file |
| `FileIo.Stream.WriteBack` | mlibc/options/ansi/generic/file-io.cpp:347-382 | afterwards the file has every buffered byte; contents and position that the stream stands for are unchanged |
| `FileIo.Stream.WriteSome` | mlibc/options/ansi/generic/file-io.cpp:369-379 | one short write moves the dirty range on without changing the contents it stands for |
| `FileIo.Stream.Reset` | mlibc/options/ansi/generic/file-io.cpp:403-418 | an empty buffer at the same position |
| `FileIo.Stream.Refill` | mlibc/options/ansi/generic/file-io.cpp:145-160 | reads ahead; empty exactly at the end of the file |
| `FileIo.Stream.Read` | mlibc/options/ansi/generic/file-io.cpp:97-171 | the plain file's bytes at the position, at least one unless at its end, for every pattern of short transfers |
| `FileIo.Stream.Take` | mlibc/options/ansi/generic/file-io.cpp:162-170 | bytes from the buffer are the plain file's bytes |
| `FileIo.Stream.Write` | mlibc/options/ansi/generic/file-io.cpp:173-243 | a nonempty prefix is written as to the plain file; in line mode no newline stays unwritten |
| `FileIo.Stream.Fill` | mlibc/options/ansi/generic/file-io.cpp:221-239 | buffering the chunk and flushing a full line is a write to the plain file |
| `FileIo.Stream.Copy` | mlibc/options/ansi/generic/file-io.cpp:221-223 | the chunk is in the buffer behind what was there |
| `FileIo.Stream.Purge` | mlibc/options/ansi/generic/file-io.cpp:270-276 | the stream stands for the file underneath |
| `FileIo.Stream.Flush` | mlibc/options/ansi/generic/file-io.cpp:278-288 | the file underneath has the plain file's contents and position |
| `FileIo.Stream.Tell` | mlibc/options/ansi/generic/file-io.cpp:290-299 | the plain file's position |
| `FileIo.Stream.Seek` | mlibc/options/ansi/generic/file-io.cpp:301-325 | contents unchanged and written back; the position is the one asked for, refused exactly when negative, and then the stream can be used as before |
| `FileIo.Stream.Fread` | mlibc/options/ansi/generic/stdio.cpp:1370-1417 | exactly the plain file's bytes, all that were asked for up to the end of the file, and the number of whole objects among them; reading may go on, and after a short read writing may |
| `FileIo.Stream.ReadBytes` | mlibc/options/ansi/generic/stdio.cpp:1377-1393 | the loop over short reads gives exactly the plain file's bytes |
| `FileIo.Stream.Fwrite` | mlibc/options/ansi/generic/stdio.cpp:1419-1470 | the plain file with all bytes of all objects written, and their number; writing may go on |
| `FileIo.Stream.WriteBytes` | mlibc/options/ansi/generic/stdio.cpp:1426-1444 | the loop over short writes gives the plain file with all bytes written |

## Left out

- BufferCache.Bcache.Bread: waiting for a buffer's sleep lock is an enabling condition, not a step.
- Log.RedoLog.LogWrite: the code of the log runs over a cache in which nobody has given up changes that are neither logged nor written; unlogged changes are in `LogSystem`.
- Log.RedoLog.Commit: the in-memory header outside the first n entries and log.lock itself are not modelled; the interleaving is the subject of `LogSystem`.
- Vm.Uvmunmap: an entry is cleared just before, not just after, its frame is freed; the two special pages are unmapped without freeing and all others with, as in every caller.
- Fs.FileSystem.FreeDirect: a pointer is cleared just before, not just after, its block is freed; the same holds of the table pointer in `Fs.FileSystem.FreeIndirect` and of the slot in `FileTable.Files.CloseAll`.
- UserMemory.Copyin: the user's page table is that of the running process, as in every caller of copyin; of copyout's callers only exec passes another one, and takes no fault (`ExecArgs.PushBytes`); copyinstr, which does not fault pages in, is not modelled.
- Exec.Kexec: opening and parsing the file, the process name and the registers other than the stack pointer are left out; the arguments are fewer than MAXARG strings shorter than a page, as sys_exec builds them.
- AddressSpace.Kfork: only the memory of fork; descriptors are in `FileTable`, states and parents in `Proc`.
- Fs.FileSystem.Readi: blocks allocated while reading a hole stay with the inode in memory; the inode cache, directories and path lookup are not modelled, and blocks are plain memory here, with the cache and the log modelled on their own.
- Fs.FileSystem.Writei: that bytes of a failed copy are lost when their buffer is recycled before the block is logged is not in its contract, but the subject of `BufferCache.EvictionForgets` and of the steps Change and Forget of `LogSystem`.
- Mkfs.Image.Iappend: which blocks mkfs takes and writes is left open once an inode lies past the bitmap block (number 224, from the 223rd file on), as it is for `MkfsImage.AddFile`; the image is lost by then, whatever it does (`MkfsImage.MakeImage`). Nothing is promised of the unfinished image that mkfs leaves behind when it gives up.
- Virtio.Disk.Submit: the notification register, the memory barriers and the data transfer itself are not modelled; the device runs between stretches of driver code, and always reports success.
- ProcTheorems.NoLostWakeup: safety only; that a woken process eventually runs is not modelled. The killed flag is left open.
- ProcTheorems.NoLostWakeupInHandler: a handler takes one lock at a time and wakes under it; nested interrupts do not occur, since the trap entry leaves interrupts off.
- Spinlock.MutualExclusion: sequentially consistent memory; fences are not modelled.
- FileIo.Stream.Read: pipe-like streams, ungetc, I/O errors and lazy allocation of the buffer are not modelled.
- PhysMem.Frames.Kfree: frames are numbers below PHYSTOP, so the alignment and upper-bound panics are not modelled; freeing a frame that is in use is excluded by precondition, which every caller modelled here is shown to meet.
- Vm.Uvmalloc: for a size above TRAPFRAME the pages below the old size are required to be mapped, as they are in exec; growproc, whose processes may have holes, checks the bound itself.
- UserMemory.Vmfault: the view is what kernel copies see, whole pages up to the rounded size; a load by user code between the size and the end of its last page is refused while that page is still unmapped.
- FileIo.Stream.Write: reading after writing and writing after reading without a flush or seek are panics of the source and preconditions here.
- FileTable.Files.Close: the descriptor has been checked by argfd, as it has for `FileTable.Files.Dup`.
- FileTable.Files.Iput: truncating an unlinked inode at its last reference is left out.
- Pipe.PipeBuffer.WriteStretch: one stretch under the pipe's lock; that sleep and wakeup lose nobody between stretches is the subject of `Proc`, and kill, which only takes sleepers away, is left out.
- Calendar.TimeGmOfGmTime: unbounded integers; the int variables are the subject of `Calendar.NarrowRoundTrip`.
- Fs.FileSystem.constructor: reading the superblock, log recovery and ireclaim are left out.
- LogSystem.RunIsCrashSafe: logging a block is one step with the last change to it, and each block write of the commit is one step with the reads around it.
- Bytes and table entries of a physical frame, and bytes and block numbers of a disk block, are separate views; code that uses one never reads the other.
- One disk and one device number; the boot path mounts ext2, so the log and the xv6 file layer are modelled as modules of their own.
- ext2 code (kernel/ext2fs.c): not modelled; its block bitmap is set most significant bit first (line 113) and cleared least significant bit first (line 168), so the bitmap theorems of `Fs` do not carry over.
- Time zones, strftime, printf, qsort, string functions, locale and wide characters of mlibc.
- Sleep locks as such (their users hold them as abstract locks), the console, the UART, the interrupt controller, trap entry and the assembly of swtch.
