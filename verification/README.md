# Loeux, verified in part

This project models the hardest parts of a small RISC-V system and proves what they are for. The
system is a kernel with a VFS, ext2 and FAT32, Sv39 page tables, sleep locks and the exit/wait
protocol, together with a user-space C compiler and linker (`lcc`) and a heap.

- **Compiler and linker** (`Rv64`, `RvMachine`, `MiniC`, `Lcc*`): code generation preserves meaning
  down to the instruction words, in both directions; the text the emitter writes is that code; every
  relocation reaches its target exactly when the distance fits; sections never overlap; and every call
  of a linked program goes to the definition that counts for its symbol.
- **Concurrency** (`SleepLock`, `ExitWait`): state machines over all interleavings of harts, tasks and
  the scheduler, with mutual exclusion, no lost wake-up, and absence of deadlock in every reachable
  state.
- **VFS** (`VfsRefs`, `VfsShape`, `VfsMounts`, `VfsOps`): reference counts equal the number of owners
  after any sequence of system calls, successful or failing.
- **ext2** (`LeBytes`, `Ext2*`): the write-back cache agrees with the disk it speeds up, files are
  sparse byte arrays, directories are finite maps, and block counts are conserved.
- **FAT32** (`FatChain`, `FatTime`): truncation and extension of cluster chains, and timestamps.
- **Memory** (`Sv39Tree`, `Sv39Vm`, `Heap`, `HeapRun`): page tables as exact partial-map updates, and
  a heap that behaves as independent buffers.
- **Hash table and paths** (`HashTable`, `PathNorm`): a resizing table that is a finite map, and an
  in-place path normaliser that is a stack fold.

Failures of memory, devices and file systems are nondeterministic choices (`Chance`, or a value left
open) or sets that say which accesses fail, so the contracts cover the failing paths. Where a property
one would expect is false of the code, a lemma gives a concrete case and the exact condition under
which it holds: `LccConst.LiExactIff`, `LccLink.PcrelPair`, `Ext2Cache.WrittenIff`,
`Ext2Files.ReadTrueIff`, `Ext2Files.WriteTrueIff`, `Ext2Dir.ListedIff`, `Ext2Dir.Grown`,
`FatChain.ExactIff` and `Heap.BreakMoves`.

Where code and comments disagree, the model follows the code: `ext2_write_block` can report success
for a dropped entry, an unreadable pointer block is a hole to `ext2_get_block`, `fat32_append_clusters`
ignores a failed link, `fat32_chain_len` stops quietly at a failed read, and `hash_table_lookup` computes
its bucket before it takes the lock (`HashTable.StaleIndexMisses` says when that misses a key).

`dafny verify dfyconfig.toml` checks the whole project.

## Model

| member | source | states |
|---|---|---|
| RvMachine.DecodeEncode | user/lcc.c:2597-2641 | an encoded word decodes to the instruction that was meant if and only if its immediate fits the field |
| LccConst.LiExactIff | user/lcc.c:2963-2978 | the constant loader leaves exactly the wanted value if and only if every base-4096 digit below the leading one is under 2048, and otherwise loses 4096 times a computed amount |
| LccConst.LiLosesDigits | user/lcc.c:2963-2978 | concrete constants that are materialised wrongly: 4095 becomes -1 and 2048 becomes -2048 |
| MiniC.AssignKeepsValue | user/lcc.c:3251-3300 | the value of an assignment expression is the right operand before conversion, unlike in C: a concrete case |
| LccExprSim.ExprSim | user/lcc.c:2991-3344 | running the code of any expression of the modelled subset leaves its value in a0, restores sp and changes only scratch stack and assigned locals |
| LccStmtSim.StmtSim | user/lcc.c:3383-3489 | statement code follows the source run for every fuel: it reaches the matching label when the statement ends, breaks, continues or returns, and keeps running when it does not end |
| LccFunction.CompiledFunctionCorrect | user/lcc.c:3567-3617 | the compiled words halt at the return address if and only if the source body terminates, with the body's result, its final locals, all other registers but t0 restored and the caller's memory untouched |
| MiniC.TerminatesUnique | user/lcc.c:3383-3489 | a statement has at most one outcome, whatever bound is put on its loop iterations |
| LccCompile.CompiledRuns | user/lcc.c:3567-3617 | the halting state is unique, and its result and locals are those of the one outcome the body has |
| LccLabels.ExprClosed | user/lcc.c:3132-3344 | every label of an expression is bound once and every jump in it refers to a bound label |
| LccLabels.StmtClosed | user/lcc.c:3383-3489 | every label of a statement is bound once, and jumps refer to bound labels or enclosing break, continue and return targets |
| LccCodeGen.CodeGen.Emit32 | user/lcc.c:2811-2817 | appends one little-endian word to the text section |
| LccCodeGen.CodeGen.NewLabel | user/lcc.c:2806-2809 | hands out the next label number and nothing else |
| LccCodeGen.CodeGen.EmitLi | user/lcc.c:2963-2978 | emits the addi/slli chain of the constant |
| LccCodeGen.CodeGen.GenExpr | user/lcc.c:3132-3344 | the recursive emitter appends exactly the words, labels and fix-ups of the expression's code function |
| LccCodeGen.CodeGen.GenBinary | user/lcc.c:3027-3130 | operands are emitted left to right with the left value saved on the stack, then the operator |
| LccCodeGen.CodeGen.GenStmt | user/lcc.c:3383-3489 | the statement emitter appends exactly the words, labels and fix-ups of the statement's code function |
| LccCodeGen.CodeGen.AssignLocals | user/lcc.c:3346-3374 | every declared local gets the next free stack slot in declaration order |
| LccCodeGen.CodeGen.AssignParams | user/lcc.c:3376-3381 | every parameter gets its stack slot |
| LccCodeGen.CodeGen.LabelOff | user/lcc.c:2873-2880 | finds the offset of a label, or nothing when it is unbound |
| LccCodeGen.CodeGen.PatchLocalJumps | user/lcc.c:2882-2904 | succeeds if and only if every fix-up's label is bound, and then rewrites exactly the immediates of the recorded branches |
| LccCodeGen.CodeGen.GenFunction | user/lcc.c:3567-3617 | a whole function is appended as its resolved code, with each label bound once |
| LccCompile.Compile | user/lcc.c:3491-3618 | end to end: the words the emitter leaves for a function whose immediates fit halt, from every state that enters them, if and only if the body terminates, and then with the body's one result, final locals, restored registers and untouched caller memory |
| LccReloc.IExact | user/lcc.c:4085-4091 | a patched I-type immediate reads back as the value if and only if it lies in -2048..2047, and always agrees with it modulo 4096 |
| LccReloc.SExact | user/lcc.c:4093-4101 | a patched S-type immediate reads back as the I-type one does |
| LccReloc.BExact | user/lcc.c:4111-4121 | a patched branch offset reads back if and only if it is even and within 4 KiB |
| LccReloc.JExact | user/lcc.c:4123-4133 | a patched jump offset reads back if and only if it is even and within 1 MiB |
| LccReloc.UExact | user/lcc.c:4103-4109 | the rounded upper part reads back if and only if the value is reachable by a 32-bit pair |
| LccReloc.CallExact | user/lcc.c:4282-4290 | upper and lower half of a call add up to the distance if and only if it lies in -2^31-2^11 .. 2^31-2^11-1 |
| LccReloc.PairExact | user/lcc.c:4291-4302 | an upper half from one value and a lower half from another add up to the first if and only if it is reachable and both agree modulo 4096 |
| LccReloc.CBExact | user/lcc.c:4137-4151 | a patched compressed branch offset reads back if and only if it is even and within 256 bytes |
| LccReloc.CJExact | user/lcc.c:4155-4172 | a patched compressed jump offset reads back if and only if it is even and within 2 KiB |
| LccLink.Image.FindHi | user/lcc.c:4174-4214 | finds the symbol of the upper half at an address, or nothing |
| LccLink.Image.Apply | user/lcc.c:4216-4331 | one relocation refuses, changing nothing, or changes exactly its own bytes to the patched ones |
| LccLink.Image.ApplyAll | user/lcc.c:4490-4524 | all relocations of a section, when no two touch the same byte: it succeeds if and only if each has a value, then every place is the patch of its original bytes and every other byte is untouched |
| LccLink.CallReaches | user/lcc.c:4282-4290 | after linking, a call lands on symbol plus addend if and only if the distance is reachable; registers and opcodes are kept |
| LccLink.JumpReaches | user/lcc.c:4269-4274 | jumps and branches land on symbol plus addend if and only if the distance is even and in range; all other fields are kept |
| LccLink.CompressedReaches | user/lcc.c:4275-4281 | compressed jumps and branches land on symbol plus addend if and only if the distance is even and in range |
| LccLink.AbsolutePair | user/lcc.c:4291-4302 | an absolute pair forms the value of its upper half if and only if it is reachable and the lower half agrees with it modulo 4096 |
| LccLink.HiFound | user/lcc.c:4174-4214 | the search for an upper half finds the relocation at that address, whichever other relocations there are |
| LccLink.PcrelPair | user/lcc.c:4303-4330 | a PC-relative pair forms symbol plus the addend of its upper half if and only if the distance is reachable and the two addends agree modulo 4096 |
| LccLink.HiAddendLost | user/lcc.c:4309-4318 | an addend of 4 on the upper half alone gives a wrong address, for every symbol and place |
| LccLayout.AlignUpIs | user/lcc.c:191-194 | clearing the low bits rounds up to the next multiple of the power of two |
| LccLayout.Pass | user/lcc.c:4384-4432 | one pass gives the sections of a role aligned, ordered, non-overlapping addresses and moves no other section |
| LccLayout.Layout | user/lcc.c:4384-4432 | text from 0x1000, data from the next page, then bss; any two loaded sections are disjoint |
| LccLayout.Fill | user/lcc.c:4434-4459 | the image holds every section's bytes at its address and zeros between |
| LccSymbols.Find | user/lcc.c:4044-4055 | returns the address entered for a name, or nothing if and only if the name is absent |
| LccSymbols.Add | user/lcc.c:4012-4042 | refuses exactly a second strong definition; otherwise enters, replaces a weak entry by a strong one, or keeps the table |
| LccSymbols.Collect | user/lcc.c:4461-4484 | succeeds if and only if no name has two strong definitions, and the table then holds exactly the definitions that count |
| LccSymbols.LookupMeans | user/lcc.c:4068-4083 | a lookup yields the strong definition of a name, or else its first weak one |
| LccProgram.Resolve | user/lcc.c:4068-4083 | a symbol gets its own address, or that of the definition that counts for its name; it fails if and only if the name has no definition |
| LccProgram.ResolveAll | user/lcc.c:4243-4243 | all relocations of a section get their symbols' addresses, or some symbol is undefined |
| LccProgram.Link | user/lcc.c:4384-4524 | a whole link: if it succeeds every loaded section lies in the images with exactly its relocations applied and no two overlap; if it fails, the cause is a duplicate, a misplaced _start, an undefined symbol or a relocation without a value |
| LccProgram.CallArrives | user/lcc.c:4216-4331 | every call of a linked program has exactly one target, its symbol's own address or the laid-out address of the definition that counts, and goes to target plus addend if and only if the distance is reachable |
| LccProgram.DefinedAt | user/lcc.c:4461-4484 | every collected definition stands for a symbol at the address where its section was laid out |
| SleepLock.StepInv | kernel/sleeplock.c:58-186 | every step of every hart keeps the invariant over locks, queues, tasks and the scheduler |
| SleepLock.ReachableInv | kernel/sleeplock.c:58-186 | the invariant holds in every state reachable by any interleaving |
| SleepLock.MutualExclusion | kernel/sleeplock.c:96-140 | at most one task is inside a sleep lock, and the lock names it |
| SleepLock.QueuedOnce | kernel/sleeplock.c:96-140 | a queued task sleeps, waits for that lock, and stands in exactly one place of one queue |
| SleepLock.NoWaiterStranded | kernel/sleeplock.c:165-186 | no lost wake-up: a free lock with waiters always has a woken task on its way to retry |
| SleepLock.SleeperIsKnown | kernel/sleeplock.c:58-74 | a sleeping task is queued on the lock it waits for or is being woken at this moment |
| SleepLock.KernelChecksPass | kernel/spinlock.c:13-59 | double acquire, foreign release and the checks of sched never panic, whatever the callers do |
| SleepLock.TaskLockHolderRuns | kernel/proc.c:296-345 | whoever holds a task lock can take its next step |
| SleepLock.LockWaitsResolve | kernel/sleeplock.c:58-186 | spinning waits are at most two deep and end at a hart that can step |
| SleepLock.DisciplinedNeverPanics | kernel/sleeplock.c:96-186 | callers that acquire what they do not own and release what they own never reach a panic |
| ExitWait.StepInv | kernel/proc.c:623-824 | every step of fork, exit, waitpid and the scheduler keeps the invariant over the process table |
| ExitWait.StepCount | kernel/proc.c:637-724 | the child count of a scanning waitpid stays right while other tasks run |
| ExitWait.ReachableInv | kernel/proc.c:623-824 | both invariants hold in every reachable state |
| ExitWait.NoLostWakeup | kernel/proc.c:623-724 | a parent asleep in waitpid has no matching zombie, except while the exiting task that will wake it is still on its way |
| ExitWait.ParentIsLive | kernel/proc.c:734-824 | a recorded parent is a live, older task, never a zombie or a free slot |
| ExitWait.ReapedOnce | kernel/proc.c:637-724 | a zombie is reaped only after it has left its hart, and its pid never appears again in the run |
| ExitWait.PidStaysGone | kernel/proc.c:502-510 | a pid that no task has any more is never issued again |
| ExitWait.LockWaitsResolve | kernel/proc.c:782-820 | waiting for a task lock while holding one climbs to older tasks and ends at a holder that can step |
| ExitWait.SomeoneActive | kernel/proc.c:637-724 | behind every sleeping parent there is an active task or a held lock |
| ExitWait.NoDeadlock | kernel/proc.c:623-824 | in every reachable state some task or scheduler can take a step |
| PathNorm.CutName | kernel/syscall.c:197-385 | removes the last component of the text in the buffer, in place |
| PathNorm.ApplySegment | kernel/syscall.c:197-385 | one segment applied in the buffer: a dot changes nothing, two dots pop, a name is pushed unless it would not fit |
| PathNorm.Walk | kernel/syscall.c:197-385 | the loop over the path folds its segments into the buffer, or empties it on overflow |
| PathNorm.BuildUserPath | kernel/syscall.c:197-385 | the whole in-place construction, with missing arguments, leaves exactly the specified text in the buffer |
| PathNorm.NormalisedIsFold | kernel/syscall.c:197-385 | with a canonical working directory the result is the join of the stack fold of the segments |
| PathNorm.EmptyIffTooLong | kernel/syscall.c:197-385 | the result is empty if and only if some intermediate join reaches the buffer size |
| PathNorm.ResultIsCanonical | kernel/syscall.c:197-385 | a nonempty result is canonical: absolute, no empty, dot or dot-dot component, no trailing slash |
| PathNorm.Idempotent | kernel/syscall.c:197-385 | normalising a result again, from any directory, changes nothing |
| VfsOps.Vfs.InodeGet | fs/vfs.c:1395-1403 | one more reference, owned by the code that took it |
| VfsOps.Vfs.InodePut | fs/vfs.c:1405-1433 | one reference less; the last one destroys the inode, once |
| VfsOps.Vfs.CacheFind | fs/vfs.c:1439-1475 | returns the cached inode with a reference for the caller, or nothing |
| VfsOps.Vfs.CacheInsert | fs/vfs.c:1480-1503 | the cache takes a reference to the inode and takes over the one to its directory, or changes nothing |
| VfsOps.Vfs.CacheRemove | fs/vfs.c:1508-1542 | removes the entry and gives back both references it owned |
| VfsOps.Vfs.FindMount | fs/vfs.c:539-564 | the deepest mount that covers a path |
| VfsOps.Vfs.WalkFrom | fs/vfs.c:345-474 | walks the components, handing the single reference from directory to entry; on failure none is left |
| VfsOps.Vfs.LookupImpl | fs/vfs.c:345-474 | on success exactly one reference to the inode that the cache then resolves the path to; on failure no reference |
| VfsOps.Vfs.Lookup | fs/vfs.c:476-499 | as the implementation, on the normalised path |
| VfsOps.Vfs.LookupParent | fs/vfs.c:574-703 | one reference to the directory of the path, and its last component |
| VfsOps.Vfs.Create | fs/vfs.c:188-308 | a new file is cached below its directory and the caller holds one reference; failures leave counts balanced |
| VfsOps.Vfs.Mkdir | fs/vfs.c:807-920 | a new directory is cached below its parent; no reference is left behind |
| VfsOps.Vfs.Remove | fs/vfs.c:928-1107 | unlink and rmdir drop exactly the entry of the last component below the directory that the path resolves to, with its references; a failure drops no entry |
| VfsOps.Vfs.FileGet | fs/vfs.c:1577-1587 | one more reference to an open file |
| VfsOps.Vfs.FilePut | fs/vfs.c:1589-1617 | one reference less; the last one gives the inode back |
| VfsOps.Vfs.FreeFd | fs/vfs.c:1662-1688 | the lowest free descriptor, or none if and only if all are in use |
| VfsOps.Vfs.Dup | fs/vfs.c:1716-1731 | the lowest free descriptor shares the file |
| VfsOps.Vfs.FdClose | fs/vfs.c:1733-1765 | empties the descriptor and drops its reference |
| VfsOps.Vfs.Open | fs/vfs.c:1175-1338 | a new descriptor over a new file over the inode of the path, or no change of files, descriptors and held references |
| VfsOps.Vfs.SetCwd | kernel/proc.c:84-146 | the normalised path is recorded and resolves to the recorded inode, which it owns one reference to; the old one is given back; a failure keeps both |
| VfsOps.Vfs.ExitFs | kernel/proc.c:597-613 | all descriptors and the working directory of the exiting process are given back |
| VfsOps.Vfs.ForkFs | kernel/proc.c:911-937 | the child shares working directory and open files, each with a reference of its own |
| VfsOps.Vfs.Mount | fs/vfs.c:77-181 | a new super block whose root is cached below the covering mount, or everything as before |
| VfsOps.Vfs.FindExact | fs/vfs.c:1883-1914 | finds the mount with exactly that path, if there is one |
| VfsOps.Vfs.Purge | fs/vfs.c:2045-2058 | rounds of collecting and removing take at most 8 * 128 cached inodes of the super block |
| VfsOps.Vfs.Umount | fs/vfs.c:1948-2071 | only an unused leaf goes; afterwards exactly max(0, n - 1024) of its n cached inodes are left, and none of its inodes when that is 0 |
| VfsOps.Vfs.Run | fs/vfs.c:77-2071 | after any sequence of system calls, failing or not, every count equals cache entries, cached children, open files, working directories and roots that refer to the inode; nothing referenced is dead; every inode is destroyed at most once, and exactly when nothing refers to it |
| VfsOps.Conserved | fs/vfs.c:1395-1617 | balanced counts with no reference in transit are exactly the owner counts |
| VfsRefs.OwnedIsLive | fs/vfs.c:1395-1433 | whatever an owner refers to is alive |
| VfsMounts.UnlinkedOk | fs/vfs.c:2006-2019 | taking a leaf out of the mount tree leaves a tree |
| VfsMounts.SbUnmounted | fs/vfs.c:1948-2071 | unmounting a leaf keeps every other super block, mount and cached key in order |
| VfsMounts.Emptied | fs/vfs.c:1948-2071 | with nothing cached, opened, used or held on it, no inode of a super block is left |
| Ext2Cache.BlockCache.ReadRaw | fs/ext2.c:173-187 | reads a block sector by sector |
| Ext2Cache.BlockCache.WriteRaw | fs/ext2.c:189-203 | a failing write leaves a prefix of new sectors, and touches no other block |
| Ext2Cache.BlockCache.ReadBlock | fs/ext2.c:329-380 | returns what the view holds and changes no view |
| Ext2Cache.BlockCache.WriteBlock | fs/ext2.c:386-437 | changes the view at that block only; a success writes it unless the new entry was dropped |
| Ext2Cache.BlockCache.Gather | fs/ext2.c:228-242 | takes up to a batch of dirty entries and marks them clean |
| Ext2Cache.BlockCache.WriteBatch | fs/ext2.c:252-299 | writes the batch; failed entries become dirty again and the view stays |
| Ext2Cache.BlockCache.Flush | fs/ext2.c:252-299 | never changes the view, ends because the dirty count falls, and on success the disk equals the view |
| Ext2Cache.WrittenIff | fs/ext2.c:386-437 | a write that reports success is in the view if and only if its entry was not dropped or the block held the data anyway |
| Ext2Cache.LostWrite | fs/ext2.c:386-437 | a concrete write that reports success and is lost |
| Ext2Alloc.FlipCounted | fs/ext2.c:794-853 | flipping a bit and moving its group's count together keeps every count equal to the clear bits |
| Ext2Files.Ext2.AllocBlock | fs/ext2.c:794-833 | returns the lowest block whose bit was clear; the bit is set and the group's count follows if and only if neither write was dropped |
| Ext2Files.Ext2.FreeBlock | fs/ext2.c:835-853 | changes no bit but that one and no count but its group's; both follow together when both writes are done |
| Ext2Files.Ext2.AllocZero | fs/ext2.c:856-881 | while no metadata write is dropped, an allocated block of zeros that no slot of any inode holds |
| Ext2Files.Ext2.Make | fs/ext2.c:947-1064 | get_block with allocation: while no metadata write is dropped, the logical block's slot holds a block and all other slots, sizes and bytes are as before |
| Ext2Files.Ext2.Find | fs/ext2.c:947-1064 | get_block without allocation returns the block in the slot, or a hole when the last pointer block cannot be read |
| Ext2Files.Ext2.ReadData | fs/ext2.c:2215-2276 | for every set of logical blocks whose pointer block cannot be read: those show as zeros, and the result is the file's bytes if and only if no nonzero byte of the range lies in them |
| Ext2Files.ReadTrueIff | fs/ext2.c:2215-2276 | a read that zeroes the blocks of such a set shows the file's bytes if and only if no nonzero byte of the range lies in them |
| Ext2Files.LostIsWrong | fs/ext2.c:888-909 | a concrete file whose read succeeds with wrong bytes |
| Ext2Files.Ext2.WriteData | fs/ext2.c:2278-2358 | for every set of blocks whose data write the cache drops: a success writes every other byte of the range and nothing else, and writes the whole range if and only if each dropped block held its bytes anyway; a failure touches no byte outside the range |
| Ext2Files.WriteTrueIff | fs/ext2.c:386-437 | a write that skips the blocks of a set has written its bytes if and only if every byte of those blocks was there before |
| Ext2Files.DroppedDataExample | fs/ext2.c:386-437 | a concrete file write that reports success and is lost |
| Ext2Files.DroppedBitSharesBlock | fs/ext2.c:794-833 | when the bitmap write of an allocation is dropped, the next allocation hands out the same block, for every volume |
| Ext2Files.Ext2.Run | fs/ext2.c:1067-2358 | any sequence of writes and of freeing whole files: while no metadata write is dropped no two slots share a block, and if all succeed every byte is the last one written since the file was freed, zero, or the original one; counts follow when no freeing was refused |
| Ext2Files.Ext2.FreeAll | fs/ext2.c:1067-1153 | clears the bits of exactly the data, indirect and double-indirect blocks of the inode, once each, apart from those the device refused or the cache dropped; every other file keeps its bytes |
| Ext2Files.FreedSound | fs/ext2.c:1067-1153 | after freeing, the block maps of all inodes are still disjoint and allocated |
| Ext2Records.TakeFreeOk | fs/ext2.c:1416-1564 | a free slot taken by an entry keeps the block tiled and adds exactly that entry |
| Ext2Records.SplitLastOk | fs/ext2.c:1416-1564 | splitting the slack of the last record keeps the block tiled and adds exactly that entry |
| Ext2Records.OnlyEntryOk | fs/ext2.c:1416-1564 | a fresh block with one entry is tiled and holds just that entry |
| Ext2Records.UnlinkOk | fs/ext2.c:1567-1642 | removing a record, by merging or by marking it free, keeps the block tiled and removes exactly that entry |
| Ext2Dir.SearchBlock | fs/ext2.c:1280-1331 | the first entry of a name in a block, or none if and only if there is none |
| Ext2Dir.AddIn | fs/ext2.c:1416-1564 | an added entry leaves a tiled block with the old entries and the new one; it is refused if and only if no free record and no slack at the end is long enough |
| Ext2Dir.Dir.Find | fs/ext2.c:1280-1331 | the inode of a name; a miss means the name is absent if and only if no block behind an unreadable pointer block has it |
| Ext2Dir.Dir.Add | fs/ext2.c:1416-1564 | for every choice of dropped writes: in an existing block the entry is added if and only if its write is kept; a new block shows the entry, zeros, its old contents or nothing, and just the entry if and only if pointer and entry reach the disk; a failure changes at most one block |
| Ext2Dir.Grown | fs/ext2.c:1530-1560 | a directory with one more block has the old entries and those the block shows, whichever of zeros, entry and pointer were dropped; it has just the new entry more if and only if that lands |
| Ext2Dir.PointerLost | fs/ext2.c:984-1003 | a directory that grows to logical block 12 while the pointer write is dropped has no new entry, although the call succeeds |
| Ext2Dir.StaleShown | fs/ext2.c:856-881 | when zeros and entry are both dropped, the directory shows the entries of whatever the block held |
| Ext2Dir.Grow | fs/ext2.c:1530-1560 | on the blocks of the file system: while no metadata write is dropped the file has one more block, with the entry or its former contents, and every block of every other file is as before |
| Ext2Dir.Dir.Remove | fs/ext2.c:1567-1642 | the directory then has exactly the old entries without one of that name, or all of them when the cache dropped the write; a miss changes nothing and means the name is absent if and only if no unreadable block has it; a failed write changes at most one block |
| Ext2Dir.Dir.Scan | fs/ext2.c:1346-1411 | the first entry at or after a cookie whose block can be found, with all entries in between in blocks that cannot, and a cookie just after it; none if and only if all the rest are in such blocks |
| Ext2Dir.Dir.ScanAll | fs/ext2.c:1346-1411 | repeated scans from cookie 0, each with its own unreadable blocks, end and list entries in order and at most once; scan i lists the first entry after the last listed that it can see; the listing is complete if and only if scan k sees the block of entry k, for every k |
| Ext2Dir.ListedIff | fs/ext2.c:1346-1411 | a listing in which each scan takes the first entry it sees is complete if and only if scan k sees the block of entry k, for every k |
| Ext2Dir.HiddenExample | fs/ext2.c:1346-1411 | a directory of thirteen blocks with one entry whose listing is empty and successful when the first scan cannot read the indirect block, for every name |
| Ext2Dir.AddIsUpdate | fs/ext2.c:1416-1564 | adding an absent name is the map update |
| Ext2Dir.RemoveIsDelete | fs/ext2.c:1567-1642 | removing a name deletes that key from the map and no other |
| Sv39Tree.LinkOk | mm/vm.c:309-335 | linking an empty table below a node changes that node only, and no leaf of any tree |
| Sv39Tree.LeafOk | mm/vm.c:65-100 | setting a leaf entry changes that leaf and no table; table frames stay a disjoint forest |
| Sv39Vm.Vm.Walk | mm/vm.c:309-335 | finds or builds the leaf table; no translation changes and tables stay disjoint |
| Sv39Vm.Vm.MapPages | mm/vm.c:65-100 | maps precisely a prefix of the requested pages, all of them on success, each previously unmapped; every other translation of every tree is kept |
| Sv39Vm.Vm.Unmap | mm/vm.c:352-372 | removes precisely the translations of its range, and with freeing precisely their frames |
| Sv39Vm.Vm.Copy | mm/vm.c:610-655 | every copyable page gets a private frame with equal bytes and flags; each new frame belongs to one page; on failure a prefix is copied and the page it stopped at is unmapped |
| Sv39Vm.FailedCopyKeepsPrefix | mm/vm.c:610-655 | when the destination did not map that page, a failed copy leaves exactly the prefix and leaks no frame |
| Sv39Vm.Vm.Va2Pa | mm/vm.c:657-669 | returns frame address plus offset if and only if the page is mapped |
| FatChain.Volume.Alloc | fs/fat32.c:200-241 | the first free cluster, marked and cleared; a failure changes no cluster in use, and a full table is reported only when nothing is free |
| FatChain.Volume.ChainLen | fs/fat32.c:268-288 | stops on every table; on a chain it counts exactly the clusters before the first failing read, so the guard never cuts |
| FatChain.Volume.FreeChain | fs/fat32.c:244-265 | stops on every table and only frees; on a chain it frees a prefix, all of it on success |
| FatChain.Volume.Append | fs/fat32.c:291-313 | the new clusters were free and hang after the tail in order up to the first lost link, and nothing in use changes but the tail's entry |
| FatChain.Volume.Truncate | fs/fat32.c:1691-1770 | other files keep their chains and all clusters in use their bytes; a success gives the file exactly ceil(size / cluster bytes) clusters if and only if a condition on old length, failed reads and lost links holds; a failed truncation to zero can leave the file naming a free cluster, and the contract says when |
| FatChain.ExactIff | fs/fat32.c:1691-1770 | a success has the asked length if and only if the chain is emptied or cut, was counted in full and is enough, or exactly as many clusters were not counted as were not linked; old clusters always come first and in order |
| FatChain.ExactWhenCounted | fs/fat32.c:291-313 | when every counting read works, a success is exact if and only if nothing is appended or no link write is lost |
| FatChain.LostLinkExample | fs/fat32.c:291-313 | a concrete table on which a reported success leaves one cluster instead of two |
| FatChain.ShortCountExample | fs/fat32.c:268-288 | concrete tables on which a failed counting read makes a successful call leave three clusters for two, and two for one |
| FatChain.Conserved | fs/fat32.c:1691-1770 | free clusters plus chain length stay constant when no link write is lost, however many clusters were counted |
| FatTime.ToFat | fs/fat32.c:316-368 | the year and month subtraction yields the calendar date and time of day of the second, clamped to 1980 |
| FatTime.CivilIs | fs/fat32.c:388-395 | the closed-form day count equals the calendar's day count |
| FatTime.RoundTrip | fs/fat32.c:316-398 | there and back gives t - t % 2 for every 32-bit t from 1980 on |
| FatTime.DateUnique | fs/fat32.c:370-398 | a day number belongs to one date only |
| FatTime.BackAgain | fs/fat32.c:316-398 | a stamp of a valid date survives the way back and there |
| HashTable.Table.constructor | utils/hashmap.c:71-109 | an empty table of the least admissible size |
| HashTable.RoundUp | utils/hashmap.c:55-62 | the least power-of-two size not below the request |
| HashTable.Table.Resize | utils/hashmap.c:145-178 | the map is unchanged; a failed resize leaves the buckets as they were; a success has the least admissible size |
| HashTable.Table.Insert | utils/hashmap.c:189-248 | inserts, overwrites or refuses exactly as asked; if resizes succeed the load stays at most 75 percent |
| HashTable.Table.InsertIfAbsent | utils/hashmap.c:393-450 | inserts only an absent key; if resizes succeed the load stays at most 75 percent |
| HashTable.Table.Lookup | utils/hashmap.c:256-282 | the value of the key, or NULL |
| HashTable.Table.Delete | utils/hashmap.c:290-335 | removes exactly that key; halving never lifts the load above 75 percent |
| HashTable.Table.ForEach | utils/hashmap.c:360-381 | the callback sees every entry exactly once |
| HashTable.StaleIndexMisses | utils/hashmap.c:256-282 | a present key is found in bucket i if and only if i is its hash modulo the current size |
| Heap.Allocator.GrowHeap | user/malloc.c:25-46 | fails if and only if the moved break falls below the heap start; otherwise a new last block after all others, which ends at the break if and only if the kernel moved the break by all of it |
| Heap.Allocator.Sbrk | kernel/syscall_impl.c:12-30 | moves the break by the request cut to a signed 32-bit number, modulo 2^64, or refuses if and only if it would fall below the heap start |
| Heap.BreakMoves | kernel/syscall_impl.c:12-30 | the break moves by the block and its header if and only if their length is below 2^31 or at least 2^64 - 2^31, and the block ends below 2^64 |
| Heap.Allocator.Malloc | user/malloc.c:48-76 | a 16-aligned block that was not in use, for every request; all other blocks in use keep place and size; a new block is large enough and inside the heap if and only if the kernel moves the break by all of it, and then malloc never fails |
| Heap.WrapToNothing | user/malloc.c:48-60 | a request of 2^64 - 1 bytes is rounded to none |
| Heap.WrapPastBreak | user/malloc.c:25-46 | for 2^64 - 48 bytes the break does not move, wherever it is |
| Heap.ShrinksHeap | user/malloc.c:25-46 | for 2^64 - 4096 bytes the call succeeds and the break goes down, so that the next block lies inside a block in use, for every heap start |
| Heap.CutTo32Bits | kernel/syscall_impl.c:12-30 | for 2^32 bytes the break goes up by the header alone |
| Heap.ServedBelow | user/malloc.c:48-76 | while the break is 2 GiB below 2^64, every request up to 2^31 - 64 bytes is served in full and none from there to 2^64 - 2^31 - 64 is |
| Heap.Allocator.FreeBlock | user/malloc.c:78-111 | that block is no longer in use, neighbours are merged, links and tail are right, all other blocks in use are kept |
| Heap.Allocator.Realloc | user/malloc.c:125-146 | the block, or one with the old contents in place of it; every other block keeps its bytes; never fails and is large enough for every request that the kernel serves in full |
| Heap.Allocator.Calloc | user/malloc.c:113-123 | a new block with zeros for the product modulo 2^64; it holds the product if and only if the kernel serves the whole product |
| Heap.Ordered | user/malloc.c:25-111 | blocks follow each other without gap or overlap |
| Heap.LiveApart | user/malloc.c:25-111 | two blocks in use share no byte |
| HeapRun.Program.Perform | user/malloc.c:25-146 | every call refines independent buffers: what is stored in a block stays there until it is freed, whatever other blocks come and go, and no request that is served in full fails |

## Left out

- lcc: `++`, `--` and compound assignment, pointers, calls, globals, strings, arrays and structures, the preprocessor, lexer and parser, and writing ELF files.
- LccFunction.CompiledFunctionCorrect: for functions of the modelled subset with at most 8 parameters whose constants and offsets fit; the value of an assignment expression is the unconverted right-hand side, as the code has it.
- LccCodeGen.CodeGen.GenBinary: integer operands only, so the scaling of pointer arithmetic is not modelled.
- LccCompile.Compile: one function at the start of the text section; loop nests of at most 128, as the generator's tables allow.
- LccLink.Image.ApplyAll: places are inside the section and do not overlap, which the linker does not check; addresses are unbounded integers.
- LccProgram.Link: the objects are given as sequences of sections, relocations and symbols; a relocation into a bss section, which the linker would write outside its buffers, is excluded.
- LccLayout.Layout: alignments are zero or powers of two, as ELF demands, and addresses do not wrap at 64 bits.
- SleepLock and ExitWait: in `SleepLock` a timer interrupt can make a task yield wherever it holds no spin lock and is about to take one; in `ExitWait` interrupts are not modelled separately from scheduling steps; killing tasks is not part of the models; waiting queues are sequences.
- ExitWait: the release of memory and files by exit is in `VfsOps.Vfs.ExitFs` only for the file-system part.
- VfsOps: calls run one after the other, so races between system calls are not modelled; permission rules, file-system answers and allocation are open choices; a super block without a root inode is not modelled.
- VfsOps.Vfs.Umount: beyond 1024 cached inodes the exact remainder is stated, not emptiness.
- Ext2Files: bitmaps are sequences of booleans; `i_blocks`, the inode table and writing inodes back, group descriptor bytes, `ext2_truncate`, the inode bitmap and the 32-bit truncation of sizes are not modelled; the block layer below files is a map whose writes may fail, tear or be dropped.
- Ext2Files.Ext2.Run: once a metadata write is dropped only shapes are promised, because two files may then share a block (`Ext2Files.DroppedBitSharesBlock`).
- Ext2Dir: the blocks of a directory are a sequence, and a failed allocation is an open choice; a failed write may leave a block that is no longer tiled, and nothing is promised then.
- Ext2Dir.Dir.Add: when a directory grows beyond twelve blocks and a bitmap, descriptor or pointer-block write is dropped, only its number of blocks is promised, because two of the blocks may then be one (`Ext2Files.DroppedBitSharesBlock`).
- FatChain: a failed table write leaves the entry as it was; sector reads of entries and the upper four bits of entries are not modelled; volumes whose cluster numbers reach the special marks are excluded by `Geometry`.
- FatChain.Volume.Truncate: the tail walk has no guard in the code, so well-formed chains are required.
- fat32_write_data, FAT and ext2 directory inode creation, and long names.
- Sv39Vm.Vm.MapPages: flags are below 1024, so that or-ing them into an entry leaves the frame number alone.
- Sv39Vm.Vm.Copy: addresses do not wrap at 64 bits; frames that are neither tables nor data pages have unknown contents.
- Address-space teardown, page faults and copying between user and kernel memory.
- HashTable: chains are sequences, keys are their contents and are not changed by the caller while stored; interleavings of several callers are not modelled beyond `HashTable.StaleIndexMisses`.
- HashTable.RoundUp: sizes up to 2^31, beyond which the loop does not end.
- Heap.Allocator.Realloc: when a request that is not served in full yields a block smaller than the contents, what copying past its end overwrites is not modelled.
- Heap.Allocator.Calloc: when the block is too small for the product, what clearing past its end overwrites is not modelled.
- HeapRun.Program.Perform: for requests that the kernel serves in full, which `Heap.ServedBelow` describes; the program does not call sbrk itself.
- Heap.Allocator.GrowHeap: pages are supplied on first use, so running out of memory, the upper end of the address space and touching memory above the break, which end the process, are not modelled; once a new block does not end at the break no further calls are described.
- Slab and page allocators, device tree, drivers, consoles, traps, the shell and the other user programs.
