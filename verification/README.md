# A verified model of the xv6 kernel core

This project models the parts of an xv6 kernel (with its C++ scheduling library) whose correctness is not
visible in one function, and proves what they promise. It covers:

- the redo log (`log.c`): group commit, crashes at any block write, recovery;
- the buffer cache (`bio.c`): sharing, recycling and pinning of buffers;
- the scheduling queues (`ass1ds.cpp`): a linked search tree of first-in first-out lists over two fixed
  pools, and the software remainder that the kernel needs for `long long`;
- block allocation and file contents (`fs.c`);
- the user heap allocator (`umalloc.c`);
- page tables and the page pool (`vm.c`, `kalloc.c`);
- sleep locks, the process table and pipes (`sleeplock.c`, `proc.c`, `pipe.c`);
- the regular expression matcher (`grep.c`).

`dafny verify dfyconfig.toml` checks everything.

## How the model is built

Concurrent protocols are machines: a state, a set of steps that are atomic in the original because of a
lock it holds, and theorems over every sequence of steps. Code that updates structures in place is a class
with methods that follow the original line by line; each method is proved against functions on values, or
is proved to take exactly the steps of a machine. The laws are proved on those values.

| files | contents |
|---|---|
| `LogMachine`, `LogTheorems`, `LogOverrun`, `LogCode` | the log as a machine, what all its runs keep, the size of the log area that is too small, and the code |
| `CacheMachine`, `CacheTheorems`, `CacheRing` | the cache as a machine, what all its runs keep, and the code over the ring of buffers |
| `LogCache` | both machines together: the log on top of the cache |
| `SchedSpec`, `SchedTree`, `SchedPools`, `SchedQueues`, `SchedNodes`, `SchedCode` | the queues as sequences, the tree, the pool of links, the lists, the pool of nodes, and the code |
| `Moddi3` | the 64-bit remainder |
| `FsDisk`, `FsOwner`, `FsFiles`, `FsCode` | blocks, words and bits; who owns each block; files as byte sequences; the code |
| `UmallocList`, `Umalloc` | the free list on values; the heap and the code |
| `VmModel`, `VmSpace`, `VmCopy`, `VmTables`, `VmCode` | pages and tables; one address space; new address spaces; how many page tables a range needs; the code |
| `ProcTable`, `ProcQueue`, `ProcCode` | the process table and its schedulers as a machine, which processes its queue loses, and the code |
| `SleepLock`, `Pipe`, `Grep` | the protocol of one sleep lock, the pipe, the matcher |

Some values are represented as follows. A disk block is a sequence of bytes and a byte its eight bits, or
128 words in the log model, where only whole blocks and header words matter. A pointer to a physical page
is its frame number and a heap address counts units of `sizeof(Header)`; 0 is the null pointer. A C string
is its characters without the final NUL. `uint` and `long long` arithmetic wraps where the original can
wrap. A panic is a result or a phase of its own, and nothing is said about the state after it.

## What turned out not to hold

- An appending `log_write` can outgrow the log area although every call keeps its reservation, because the
  size test comes before the lock is taken. This is possible exactly when the log area has between 2 and
  `LOGSIZE` blocks (`LogOverrun.OverrunExactly`); `mkfs` makes it `LOGSIZE` blocks. With a larger area, or
  if no other call comes between test and append, all theorems hold.
- Calls that keep their reservations can meet a panic of `log_write`, because it tests the size of the log
  before it looks whether the block is new. A `log_write` that would append panics in some run exactly if the
  log area has at most `LOGSIZE` blocks, which is the case for the area that `mkfs` makes
  (`LogOverrun.AppendingPanicExactly`). A `log_write` of a block that is in the log already, which would add
  nothing, panics in some run exactly if the log area has a block beside its header
  (`LogOverrun.AbsorbingPanicExactly`). No other panic of the log is reachable (`LogTheorems.GroupCommit`).
- `extractProc` needs a free node to look at anything: without one it reports that the process is absent.
  It works exactly if fewer keys wait than there are nodes (`SchedCode.Scheduler.ExtractProc`); with
  `NPROCMAP` keys it does not find a process that waits (`SchedCode.QueuedButAbsent`).
- `malloc` returns a block that is too small for more than 2^32 - 8 bytes (`Umalloc.RoomExactly`), and for
  requests of 2 GB and more it asks `sbrk` for a number that is not positive (`Umalloc.RequestExactly`).
- A failed `allocuvm` frees the pages it had added and keeps the page tables it had added. If the pages were
  not there before, every page has its old use again exactly if each page number of the range that lacks a
  table is so far up that the free pages run out before it gets one (`VmCode.Machine.Allocuvm`);
  `VmCode.TableStays` is a call after which a table stays.
- `__moddi3` returns the remainder for every divisor other than 0 and the minimum value exactly if the
  number is not the minimum value (`Moddi3.RemainderExactly`); with the minimum value as divisor it does
  not return (`Moddi3.MinDivisorNeverStops`).
- A RUNNABLE process is not always in the priority queue: the results of `put` are ignored, and `wakeup1`,
  `kill` and `fork` can find no free link. A process is lost exactly if such a step finds none for it while it
  is not in the queue, and it is then never chosen again (`ProcQueue.LostExactly`). It happens because
  a process that yields is queued twice, by `yield` and by the scheduler (`ProcQueue.QueuedTwice`): with any
  number of links, one process that yields can use them all up (`ProcQueue.ProcessForgotten`). Without `yield`,
  one link for each process is enough (`ProcQueue.EnoughWithoutYield`).
- A reader can sleep on a pipe with bytes in it: a writer that was killed and finds the pipe full returns
  without a wakeup. This happens exactly if a reader slept and the writer had more than `PIPESIZE` bytes left
  (`Pipe.PipeObject.Pipewrite`, `Pipe.ReaderNotWoken`). No writer is ever left asleep.

## Model

| member | source | states |
|---|---|---|
| LogMachine.HeaderRoundTrip | log.c:86-113 | what read_head reads from a header block is the list that write_head put there, whatever the block held before |
| LogTheorems.HeaderWriteCommits | log.c:102-113 | the single header write turns what recovery would restore from the old contents into the contents that callers see |
| LogTheorems.CopyHomeDiskOk | log.c:70-82 | copying a logged block home does not change what a later recovery restores, so recovery may crash and start again |
| LogTheorems.StepRefines | log.c:70-233 | every step of every call, of commit, of recovery and every crash keeps disk, pinned buffers, header and reservations related to a specification that commits atomically |
| LogTheorems.RunRefines | log.c:70-233 | the same for every interleaved run with any number of crashes, also inside recovery, in which appends fit the log area |
| LogTheorems.LargeLogFits | log.c:214-233 | in a log area of more than LOGSIZE blocks every append of every run fits |
| LogTheorems.SerialFits | log.c:214-233 | appends fit an area of any size if no call comes between the size test and the append |
| LogTheorems.CommitDecides | log.c:193-202 | through a commit and any crashes and recoveries after it, the durable contents are the new ones exactly if the header write happened |
| LogTheorems.CrashAtomicity | log.c:70-122 | from the start of a commit, after crashes at any block writes of commit and recovery and a completed recovery, the home blocks are all new if the header write reached the disk and all old if it did not |
| LogTheorems.SettledDisk | log.c:116-122 | after a completed commit or recovery the home blocks are the durable contents |
| LogTheorems.DurableAfterRecovery | log.c:54-66 | after every recovery from the first boot on, home blocks hold exactly the effects of the commits whose header was written, and reads see the current contents |
| LogTheorems.GroupCommit | log.c:126-174 | in every run and for every size of the log area a commit has no call in progress, entries plus unused reservations stay within LOGSIZE, end_op does not panic, and log_write panics only on a full log or log area; in an area larger than LOGSIZE only if it would add nothing |
| LogTheorems.PanicCause | log.c:218-221 | a step that panics is a log_write on a full log or log area; with a log area larger than LOGSIZE it is of a block that is logged already, on a full log |
| LogTheorems.CommitFreezes | log.c:146-202 | through every run from the start of a commit until its erasure the header in memory does not change, no call enters, nobody sees a block change, and there is no panic |
| LogTheorems.LastCallCommits | log.c:146-163 | in every run from the first boot, end_op starts the commit exactly if no other call is inside, and the commit then begins with the first logged block, or is over at once if the log is empty |
| LogTheorems.QuietIsCommitted | log.c:146-174 | in every run, whenever no call is inside and no commit runs, the log is empty, and if appends fit the home blocks are the current contents |
| LogOverrun.Overrun | log.c:214-233 | for every log area of 2 to LOGSIZE blocks, an interleaving of three calls that keep their reservations and end with a header that does not fit the area |
| LogOverrun.HeaderOnly | log.c:218 | a log area of one block never accepts a write, so nothing outgrows it |
| LogOverrun.OverrunExactly | log.c:214-233 | some run outgrows the log area if and only if the area has between 2 and LOGSIZE blocks |
| LogOverrun.AppendingPanicExactly | log.c:214-232 | some run of calls within their reservations panics in a log_write of a block that is not logged if and only if the log area has at most LOGSIZE blocks |
| LogOverrun.AbsorbingPanicExactly | log.c:214-232 | some run panics in a log_write of a block that is logged already if and only if the log area has at least 2 blocks |
| LogCode.Log.WriteLog | log.c:178-190 | the loop takes exactly one machine step per header entry, each copying what readers see of a block to its log block |
| LogCode.Log.WriteHead | log.c:102-113 | the header block holds the count and the entries, and its other words are as before |
| LogCode.Log.ReadHead | log.c:86-96 | the header in memory is the list in the header block |
| LogCode.Log.InstallTrans | log.c:70-82 | the loop takes one machine step per entry, copying log blocks home and unpinning them |
| LogCode.Log.Commit | log.c:193-202 | a commit takes the machine steps copy, header write, install, erase in this order, or none if the header is empty |
| LogCode.Log.CommitAll | log.c:165-173 | after end_op's commit the home blocks are what callers saw before it |
| LogCode.Log.LeaveOp | log.c:146-174 | the whole of end_op: after the last call has left, its commit has emptied the log and the home blocks are what callers saw; after any other call nothing is written; no call sleeps any more |
| LogCode.Log.NobodySleeps | log.c:126-174 | when no call is inside and no commit runs, no call sleeps |
| LogCode.Log.RecoverFromLog | log.c:116-122 | recovery reads the header, replays its entries and erases it, as machine steps |
| LogCode.Log.InitLog | log.c:54-66 | from every state a crash can leave, recovery makes the home blocks the durable contents |
| LogCode.Log.BeginOp | log.c:126-141 | a call is admitted exactly if no commit runs and its reservation fits, and sleeps otherwise; admission is the machine's step, whatever the size of the log area; nobody sleeps who could be admitted |
| LogCode.Log.EndOp | log.c:146-163 | the committing panic is not reached, the call starts the commit exactly if every other call is outside, and wakes all sleepers otherwise |
| LogCode.Log.CheckWrite | log.c:218-221 | the panic tests fire exactly on a full log or log area; with an area larger than LOGSIZE never for a block that is not logged yet |
| LogCode.Log.FindSlot | log.c:224-227 | the search returns the slot of the block, or the first free slot if it is not logged |
| LogCode.Log.LogWrite | log.c:223-232 | the block is absorbed or appended and is pinned with the new data, as the machine's step, also if it outgrows the log area; all invariants are kept if it fits |
| CacheTheorems.StepRefines | bio.c:62-141 | every step of any number of callers keeps counts, locks, identities and contents related to a plain map of blocks |
| CacheTheorems.RunRefines | bio.c:62-141 | the same for every interleaved run |
| CacheTheorems.BreadReturnsBlock | bio.c:97-106 | in every run, who holds a buffer after bread holds the block asked for, alone, in the only buffer of that block, with the contents of the plain map |
| CacheTheorems.WaitersKeepTheirBlock | bio.c:70-74 | a caller that has left bcache.lock and waits for the sleep lock still waits for the block it asked for |
| CacheTheorems.PinnedUntilWritten | bio.c:81-86 | a block changed by log_write is neither recycled nor written home, in any run, until its buffer is written by bwrite |
| CacheRing.BufferCache.PushFront | bio.c:50-54 | linking in after the head keeps the double ring well formed and puts the buffer first |
| CacheRing.BufferCache.Unlink | bio.c:132-133 | unlinking keeps the double ring well formed and removes exactly that buffer |
| CacheRing.BufferCache.Binit | bio.c:39-56 | a ring of n unused buffers |
| CacheRing.BufferCache.Find | bio.c:69-76 | the first buffer on the ring with this identity, or the head if there is none |
| CacheRing.BufferCache.FindUnused | bio.c:81-91 | the last buffer on the ring that is unreferenced and not dirty, or the head if there is none |
| CacheRing.BufferCache.Choose | bio.c:62-93 | a buffer of the block if there is one, else the recyclable buffer whose last reference was dropped the longest ago, else none is recyclable |
| CacheRing.BufferCache.Bget | bio.c:62-93 | bget takes the machine's Hit step if the block is cached, else its Recycle step on the recyclable buffer that was released the longest ago, else panics with every buffer in use or dirty |
| CacheRing.BufferCache.Touch | bio.c:132-137 | the buffer moves to the front, all others keep their order, and the ring stays sorted by last release |
| CacheRing.BufferCache.Unreference | bio.c:128-140 | brelse takes the machine's Unref step; exactly if the count drops to 0 the buffer moves to the front with a new release time, and all others keep order and times |
| LogCache.StepKeeps | log.c:70-232 | a step of both machines, in which log.c reaches disk and buffers only through bread, log_write, bwrite and brelse, keeps both invariants, and keeps the log's pinned blocks the dirty buffers and its readers' view what bread returns |
| LogCache.RunKeeps | log.c:70-232 | the same for every run of both, with crashes anywhere |
| LogCache.BreadSeesLog | bio.c:97-106 | in every run from power on, who reads a block through the cache gets the current contents that the log's specification says |
| LogCache.LoggedBlockStays | log.c:178-232 | in every run a block in the log has a dirty buffer that is not recycled, and is not written home, until the header of its commit is written |
| SchedSpec.PutInserts | ass1ds.cpp:344-374 | put is insertion after all entries with an equal or smaller key: the queue is stably sorted |
| SchedSpec.PutKeepsOrder | ass1ds.cpp:344-374 | put keeps keys strictly rising and lists non-empty |
| SchedSpec.PutSize | ass1ds.cpp:344-374 | put needs a new node exactly if the key is new |
| SchedSpec.PlaceSplits | ass1ds.cpp:344-374 | the place of insertion splits a sorted queue exactly by key |
| SchedSpec.EntriesSorted | ass1ds.cpp:344-374 | the queue read in order is sorted by key |
| SchedSpec.ExtractMinDropsFirst | ass1ds.cpp:414-437 | extractMin removes the first entry of the sorted sequence and nothing else |
| SchedSpec.ExtractMinKeepsOrder | ass1ds.cpp:414-437 | extractMin keeps keys strictly rising and lists non-empty |
| SchedSpec.WithoutIs | ass1ds.cpp:451-465 | removing a process leaves exactly the entries of the others |
| SchedSpec.RefileNeedsOneBucket | ass1ds.cpp:457-461 | in extractProc a put with a new key happens only while the two maps use no more nodes than the queue had |
| SchedSpec.RefilingHead | ass1ds.cpp:457-461 | the ignored put of extractProc finds its key or a free node |
| SchedSpec.RefilingEnd | ass1ds.cpp:451-465 | when the queue is empty the temporary map is the queue without the process |
| SchedSpec.ListToMapToList | ass1ds.cpp:306-321 | a list filed under key 0 and drained is the list |
| SchedTree.InOrderPut | ass1ds.cpp:344-374 | the search and insertion in the tree is put on the in-order sequence of its nodes |
| SchedTree.FoundIsHasKey | ass1ds.cpp:344-374 | the search finds a node exactly if some node has the key |
| SchedTree.InOrderExtract | ass1ds.cpp:414-437 | unlinking the leftmost node, or its first process, is extractMin on the in-order sequence |
| SchedTree.PutMissing | ass1ds.cpp:350-372 | hanging a new node below the end of the search keeps the linked tree, its parent links included |
| SchedTree.ExtractUnlinks | ass1ds.cpp:422-434 | bypassing the leftmost node keeps the linked tree, its parent links included |
| SchedPools.EnqueueOk | ass1ds.cpp:238-256 | taking a free link and appending it keeps free links and lists a partition of the pool |
| SchedPools.RemoveOk | ass1ds.cpp:258-304 | taking a link out of a list and freeing it keeps the partition |
| SchedPools.MoveOk | ass1ds.cpp:311-318 | handing a whole list over keeps the partition |
| SchedPools.ChainSimple | ass1ds.cpp:225-232 | a list that ends visits no link twice |
| SchedNodes.PutFresh | ass1ds.cpp:209-223 | a new node leaves the pool and joins one tree; all other nodes stay where they are |
| SchedNodes.ExtractLast | ass1ds.cpp:421-434 | a node whose list is empty leaves its tree and returns to the pool |
| SchedNodes.RekeyFree | ass1ds.cpp:209-223 | an allocNode that fails for lack of a link leaves trees, lists and pools as they were |
| SchedNodes.FileList | ass1ds.cpp:306-321 | a free node takes over a whole list as the only node of the map |
| SchedNodes.NodesConserved | ass1ds.cpp:209-223 | free nodes and the keys of both maps together are always as many as the pool has nodes |
| SchedQueues.QueuePool.Enqueue | ass1ds.cpp:248-256 | appends the process, or changes nothing; it fails exactly if no link is free |
| SchedQueues.QueuePool.Dequeue | ass1ds.cpp:258-273 | removes and returns the first process, and frees its link |
| SchedQueues.QueuePool.Remove | ass1ds.cpp:275-304 | removes the first occurrence of the process, and reports exactly whether there was one |
| SchedQueues.QueuePool.MoveAll | ass1ds.cpp:315-317 | the links of one list become those of an empty one, in order |
| SchedQueues.QueuePool.GetMinKey | ass1ds.cpp:323-338 | the least accumulator on the list, none for the empty list |
| SchedCode.InitSchedDS | ass1ds.cpp:126-152 | three empty queues over NPROCLIST free links and NPROCMAP free nodes, with all invariants |
| SchedCode.Scheduler.WaitingFacts | ass1ds.cpp:344-374 | in every valid state the queue is sorted by key, and free nodes plus waiting keys are all nodes |
| SchedCode.Scheduler.LinkMeansNode | ass1ds.cpp:41-42 | with as many nodes as links, as initSchedDS makes them, a free link means a free node, so put fails exactly if no link is free |
| SchedCode.Scheduler.FindEnd | ass1ds.cpp:344-374 | the loop of put ends at the node with the key, or at the node that lacks the child the key asks for |
| SchedCode.Scheduler.GetMinNode | ass1ds.cpp:376-382 | the leftmost node of the tree, which has the least key |
| SchedCode.Scheduler.GetMinKey | ass1ds.cpp:406-412 | the key of the first entry, none for the empty map |
| SchedCode.Scheduler.NewNode | ass1ds.cpp:209-223 | a node with the process, or nothing taken; it fails exactly if a node or a link is missing |
| SchedCode.Scheduler.Put | ass1ds.cpp:396-404 | the tree after put is put on its sequence, or unchanged; it fails exactly if there is no link, or the key is new and there is no node; pools shrink by exactly what is used |
| SchedCode.Scheduler.PutProc | ass1ds.cpp:396-404 | stable insertion into the sorted queue, after exactly the entries with an equal or smaller key, with the round robin queue and the running processes unchanged; the exact use of nodes and links; with as many nodes as links it fails exactly if no link is free |
| SchedCode.Scheduler.Unlink | ass1ds.cpp:421-433 | the pointers around the leftmost node, root or not, bypass it, and it is the first free node |
| SchedCode.Scheduler.ExtractMin | ass1ds.cpp:414-437 | the first process of the sequence, a tree without it, and the link and an emptied node back in their pools |
| SchedCode.Scheduler.ExtractMinProc | ass1ds.cpp:414-437 | removes the head of the stably sorted queue and conserves free nodes plus tree nodes |
| SchedCode.Scheduler.EnqueueProc | ass1ds.cpp:248-256 | appends to the round robin queue or the running processes and leaves the rest alone |
| SchedCode.Scheduler.DequeueProc | ass1ds.cpp:258-273 | takes the head of the round robin queue |
| SchedCode.Scheduler.RemoveProc | ass1ds.cpp:275-304 | removes the first occurrence among the running processes |
| SchedCode.Scheduler.TransferToRoundRobin | ass1ds.cpp:439-449 | all processes move in the order of extraction, the ignored enqueue never fails, and all nodes are free; refused exactly if the list is not empty |
| SchedCode.Scheduler.TransferToPriorityQueue | ass1ds.cpp:306-321 | all processes are filed under key 0 in order; refused exactly if the map is not empty or there is a process and no node |
| SchedCode.Scheduler.ThereAndBack | ass1ds.cpp:306-321 | list to map to list is the identity, given a free node |
| SchedCode.Scheduler.BackAndThere | ass1ds.cpp:439-449 | map to list to map keeps the order of later extractions, and always finds a node |
| SchedCode.Scheduler.ExtractProc | ass1ds.cpp:451-465 | with a free node and keys equal to accumulators, every occurrence of the process is removed and the order kept; the result says whether it was present; without a free node, that is exactly if as many keys wait as there are nodes, nothing happens and the result is false |
| SchedCode.QueuedButAbsent | ass1ds.cpp:451-465 | from initSchedDS on, NPROCMAP processes under different keys make extractProc report that a waiting process is absent |
| Moddi3.Reduce | ass1ds.cpp:482-487 | the doubling loop takes a multiple of the divisor off, with wrapping additions, and leaves less than one more multiple, in at most 63 turns |
| Moddi3.QuotientHalves | ass1ds.cpp:481-490 | the quotient at least halves on each outer pass |
| Moddi3.Passes | ass1ds.cpp:480-490 | the remainder of non-negative operands after at most 64 outer passes of at most 63 turns each |
| Moddi3.TruncatedIs | ass1ds.cpp:467 | the reference remainder belongs to the quotient truncated toward zero, as section 6.5.5 of ISO/IEC 9899:1999 asks |
| Moddi3.Remainder | ass1ds.cpp:467-491 | the truncated remainder for all operands other than the minimum value; a panic exactly for divisor 0; for the minimum value as number it returns that number |
| Moddi3.RemainderExactly | ass1ds.cpp:467-491 | the result is the remainder if and only if the number is not the minimum value |
| Moddi3.MinDivisorNeverStops | ass1ds.cpp:478-487 | with the minimum value as divisor the test of the inner loop holds after any number of turns |
| FsDisk.WordIs | fs.c:389-393 | a word of a block is the sum of its four bytes times 1, 256, 65536 and 16777216 |
| FsDisk.WordAfterSet | fs.c:389-393 | an entry written to an indirect block reads back, and the other entries are unchanged |
| FsDisk.UsedAfterMark | fs.c:66-68 | setting a bit of the free map changes the bit of that block only |
| FsDisk.UsedAfterClear | fs.c:89-93 | clearing a bit of the free map changes the bit of that block only |
| FsOwner.OwnsMeans | fs.c:56-96 | the invariant says: a bit is set exactly for metadata and for blocks in a slot of an inode, and no block is in two slots |
| FsOwner.ClaimedOwns | fs.c:379-383 | a free block put into an empty slot of the address array keeps the invariant |
| FsOwner.EnteredOwns | fs.c:391-394 | a free block entered in the indirect block keeps the invariant |
| FsOwner.WrittenOwns | fs.c:503-505 | writing a data block changes no slot of any inode |
| FsOwner.ReleasedOwns | fs.c:415-420 | freeing a direct block, or the indirect block after its entries, keeps the invariant |
| FsFiles.WrittenContent | fs.c:500-507 | after writei's loop the file is the old one with the new bytes spliced in |
| FsFiles.SameContent | fs.c:453-512 | a file whose slots and data are unchanged has the same contents |
| FsFiles.ConfinedChain | fs.c:483-512 | the writes of one turn after another stay within the blocks of the inode and the bits of its new blocks |
| FsFiles.EmptyImage | fs.c:56-96 | an image with empty inodes and only metadata marked satisfies all invariants |
| FsCode.FileSystem.Balloc | fs.c:56-78 | the first block whose bit is clear, marked and zeroed, with one bit of one bitmap block changed and all other blocks as they were; a panic exactly if every bit is set |
| FsCode.FileSystem.Bfree | fs.c:82-96 | clears the bit and no other, and changes no other block; a panic exactly if it is clear |
| FsCode.FileSystem.BallocFree | fs.c:56-78 | under the invariant the block is nobody's and is not block 0 |
| FsCode.FileSystem.Bmap | fs.c:374-401 | the block of the slot, allocated if the slot is empty, with all other slots, bytes and inodes unchanged, and every block but the new ones, its indirect block and their bits as before; a panic exactly if the block number is out of range or there are too few free blocks |
| FsCode.FileSystem.Readi | fs.c:454-478 | a slice of the file, the error exactly for an offset behind the end or a sum that wraps; it never allocates and never panics |
| FsCode.FileSystem.Writei | fs.c:483-512 | splices the bytes in, updates size and inode copy, leaves all other files alone, and changes no block on the disk but those of this file and the bits of its new blocks; the error exactly for an offset behind the end or a file that would be too large; a panic exactly if there are too few free blocks |
| FsCode.FileSystem.WriteThenRead | fs.c:453-512 | a readi of any range after a writei returns the written bytes in their place and the old ones around them; of the written range it returns exactly what was written |
| FsCode.FileSystem.Itrunc | fs.c:409-436 | frees exactly the blocks of the inode, the indirect block included, without the double-free panic, and writes nothing but the bitmap; the file is empty and all others are unchanged |
| UmallocList.InsertedOk | umalloc.c:33-42 | whichever neighbours a freed block joins, the list stays circular, rising with one wrap, and no two blocks touch |
| UmallocList.InsertedUnits | umalloc.c:33-42 | the free units grow by exactly the units of the block |
| UmallocList.CutOk | umalloc.c:75-83 | taking a block or its end keeps the list well formed |
| UmallocList.CutUnits | umalloc.c:75-83 | the free units shrink by exactly the units handed out |
| Umalloc.EachUnitOnce | umalloc.c:24-90 | every unit that sbrk granted is in exactly one block, free or taken |
| Umalloc.FreePartition | umalloc.c:25-44 | free keeps free and taken blocks a partition of the granted units |
| Umalloc.CutPartition | umalloc.c:74-85 | malloc keeps the partition, and the new block is disjoint from all others |
| Umalloc.RoomExactly | umalloc.c:69 | the block has room for the request if and only if the sum does not wrap, that is up to 2^32 - 8 bytes |
| Umalloc.RoomFails | umalloc.c:69 | a request of 2^32 - 1 bytes looks for a single unit |
| Umalloc.RequestExactly | umalloc.c:52-54 | sbrk is asked for the bytes that morecore records if and only if fewer than 2^28 units are wanted, that is for requests below 2 GB or above 2^32 - 8 bytes |
| Umalloc.Allocator.FindPlace | umalloc.c:30-32 | from any position of freep the search ends at the block after which the address belongs |
| Umalloc.Allocator.Free | umalloc.c:25-44 | the block is free, no longer taken, and all invariants hold |
| Umalloc.Allocator.Morecore | umalloc.c:47-61 | the granted units become free and some block is large enough; null exactly if sbrk refuses; a stray block exactly if the number given to sbrk is not positive |
| Umalloc.Allocator.Malloc | umalloc.c:64-90 | terminates with a new block of the computed size, disjoint from all others: if some free block is large enough, the end of the first such block after freep, without sbrk, else from the memory of sbrk; null exactly if nothing fits and sbrk refuses; a stray result exactly for 2^28 units or more when sbrk does not refuse |
| VmModel.PteChangeOk | vm.c:71-73 | writing a table entry together with the use of its page keeps tables and pages below exactly one entry each |
| VmModel.PteWritten | vm.c:73 | only the entry that is written changes, in all address spaces |
| VmModel.TableAdded | vm.c:45-52 | a new zeroed table maps nothing and changes no other entry |
| VmSpace.PoolPush | kalloc.c:68-74 | kfree keeps the free list running through exactly the free pages, each once |
| VmSpace.PoolPop | kalloc.c:89-91 | kalloc keeps it so |
| VmSpace.UnmappedOne | vm.c:269-276 | freeing a user page and clearing its entry keeps all invariants and changes nothing else |
| VmSpace.GoneIs | vm.c:284-298 | unmapping the user half, freeing the tables and then the directory returns exactly the pages of the address space |
| VmCopy.CopiedOne | vm.c:325-339 | one turn of copyuvm adds one page with equal words and flags in a page that was free |
| VmCopy.NewGone | vm.c:342-344 | giving back an unfinished address space restores the use of every page |
| VmCopy.GrownUndone | vm.c:235-239 | after a failed allocuvm all entries are as before, and no page has changed its use but for new page tables |
| VmTables.MissingIs | vm.c:42-52 | the number of page tables that a range lacks, if those up to a place are there |
| VmTables.StopsEarly | vm.c:230-245 | a range is not completed exactly if pages plus missing tables outnumber the free pages; no table is added before that exactly if each missing table is too far up |
| VmTables.TablesKept | vm.c:235-245 | after a failed allocuvm every page has its old use if and only if no page number it mapped lacked a table |
| VmTables.NewGrown | vm.c:222-249 | an address space that setupkvm made and allocuvm grew consists of pages that were free |
| VmTables.NewUndone | vm.c:222-249 | the same after an allocuvm that failed |
| VmCopy.RowApart | vm.c:110-115 | the rows of kmap do not overlap and lie in the kernel half, for a page-aligned data address |
| VmCopy.KernelRows | vm.c:110-115 | page by page: physical memory up to PHYSTOP above KERNBASE, the devices at their own addresses, kernel text and read-only data not writable, nothing for user mode, and no other page |
| VmCode.Machine.Kfree | kalloc.c:60-77 | the page is filled and linked in front of the free list; a panic exactly outside the pool |
| VmCode.Machine.Kalloc | kalloc.c:83-95 | a free page, null exactly if there is none |
| VmCode.Machine.Freerange | kalloc.c:47-53 | exactly the whole pages between the addresses become free |
| VmCode.Machine.Walk | vm.c:36-55 | the table for the address, allocated on request with a present, writable, user directory entry, and with no entry changed; null exactly if there is none and none is wanted or no page is free |
| VmCode.Machine.Mappages | vm.c:61-80 | the pages are mapped to consecutive frames and no other entry changes; exactly the missing tables are taken from the pool; the remap panic needs a present entry, and an error needs an empty pool and a missing table |
| VmCode.Machine.Setupkvm | vm.c:119-136 | a directory that maps exactly the kernel's pages, each to its physical page with its permissions and none for user mode, in 65 pages that were free; null exactly if fewer are free, with every page back in the pool; it meets no remap panic |
| VmCode.Machine.Deallocuvm | vm.c:256-279 | with its jumps over missing tables it clears and frees exactly the present user pages between the sizes, like a scan of every page |
| VmCode.Machine.Freevm | vm.c:284-298 | every page of the address space is free and nothing else has changed |
| VmCode.Machine.Allocuvm | vm.c:222-249 | zeroed user pages for every page number between the sizes; if those were not there before, it fails exactly if there are fewer free pages than pages and missing tables; then the mappings are as before, the tables up to the page it reached are kept, and every page has its old use if and only if no page that lacked a table was reached |
| VmCode.TableStays | vm.c:235-239 | a machine with 67 free pages on which a failed allocuvm leaves a page table behind |
| VmCode.Machine.MakeAndFree | vm.c:284-298 | setupkvm, allocuvm and freevm leave the use of every page and all pages in use as they were, whether or not memory ran out |
| VmCode.Machine.Copyuvm | vm.c:316-345 | the child has equal words and flags on pages that were free for every page below the size, no other user page, and the kernel's pages in its kernel half; on failure every page is back in the pool; the exact number of pages it takes, and it fails only if fewer are free; a panic needs a missing page |
| SleepLock.MutualExclusion | sleeplock.c:23-42 | in every interleaving at most one process holds the lock |
| SleepLock.NoLostWakeup | sleeplock.c:23-42 | whenever the inner spin lock is free and locked is 0, no process sleeps on the lock or is about to, with kills waking sleepers at any time |
| SleepLock.HoldingIsExact | sleeplock.c:45-53 | holdingsleep is true exactly for the holder |
| SleepLock.TakesIfFree | sleeplock.c:26-30 | a process that tests the lock has it afterwards exactly if nobody had it, and goes to sleep otherwise |
| SleepLock.NoDeadlock | sleeplock.c:23-53 | in every reachable state in which no step of the lock's code can be taken, every process is outside or asleep, and while one is asleep another holds the lock outside the lock's code |
| SleepLock.StepKeeps | proc.c:524-586 | every step of acquiresleep, releasesleep, sleep, wakeup1 and kill keeps who holds which lock and that each sleeper is woken |
| ProcTable.OneCpuPerProcess | proc.c:410-435 | in every run, with wakeups by processes and by interrupt handlers on idle CPUs, whenever ptable.lock is free a process is RUNNING exactly if it is the current process of a CPU, and of one only, whatever duplicates and stale entries the queue holds |
| ProcTable.RunnableIsNowhere | proc.c:415-422 | while a scheduler chooses, no RUNNABLE process is any CPU's current process |
| ProcTable.SchedHoldsLockAndLeft | proc.c:470-475 | who enters sched holds ptable.lock and is not RUNNING, so two of its four panics are not reached |
| ProcTable.StepKeeps | proc.c:410-612 | every step of scheduling, fork, exit, wait, sleep, wakeup and kill keeps the invariant |
| ProcTable.SleepersQueued | proc.c:569-576 | wakeup1 queues each sleeper on the channel once if there are links for all, else the first ones in the order of the table, as many as there are links |
| ProcQueue.RunLinks | ass1ds.cpp:176-190 | in every run the entries of the queue, the running processes and the free links are always as many as at the start |
| ProcQueue.HolderIsRunning | proc.c:416-425 | in every run, whenever ptable.lock is free the list of running processes holds exactly the RUNNING ones, each once, although its add may fail |
| ProcQueue.LostExactly | proc.c:410-612 | in every run a process is RUNNABLE and in reach of no scheduler exactly if some earlier step made it RUNNABLE without a free link while it was not in the queue; nothing brings it back |
| ProcQueue.RunnableIsQueued | proc.c:410-612 | in every run, whenever ptable.lock is free, a RUNNABLE process is in the queue if and only if no step has dropped it |
| ProcQueue.YieldQueues | proc.c:485-498 | the put of yield always finds a link |
| ProcQueue.QueuedTwice | proc.c:424-430 | the put of the scheduler after a yield meets a process that is in the queue already |
| ProcQueue.EnoughWithoutYield | ass1ds.cpp:41 | with one link for each process and without yield, no step of any run drops a process, and no process is in the queue twice |
| ProcQueue.ProcessForgotten | proc.c:485-577 | for every number of processes above 1 and every number of links, a run at whose end a RUNNABLE process is in no queue |
| ProcCode.Kernel.Put | proc.c:575 | the process is in the queue once more if a link is free, and nothing happens otherwise |
| ProcCode.Kernel.Launches | proc.c:248-255 | fork's child becomes RUNNABLE and is queued exactly if a link is free, as the machine's step |
| ProcCode.Kernel.Wakeup1 | proc.c:565-577 | exactly the processes that sleep on the channel become RUNNABLE, and exactly they are queued, each once, as far as there are links, as one machine step that keeps the invariant, for a process or for an interrupt handler on an idle CPU |
| ProcCode.Kernel.KillProc | proc.c:592-612 | marks the first process with the pid, and wakes and queues it exactly if it sleeps, queues it only with a free link; -1 exactly if no process has the pid |
| ProcCode.Kernel.AllocProc | proc.c:118-128 | the first UNUSED slot becomes EMBRYO with the next pid; none exactly if no slot is UNUSED |
| ProcCode.Kernel.Scan | proc.c:313-338 | reaps the first child in the table that is a zombie, clears exactly its fields and returns its pid; without one it changes nothing and says exactly whether there are children |
| ProcCode.Kernel.Dispatch | proc.c:412-421 | a RUNNABLE process from the queue becomes current and RUNNING and joins the running processes, any other entry is dropped and its link is free, as machine steps that keep the invariant |
| ProcCode.Kernel.Retire | proc.c:422-433 | the CPU gives up its process, which leaves the running processes and is queued again exactly if it is RUNNABLE and there is a link, as machine steps that keep the invariant |
| ProcCode.Kernel.Leaves | proc.c:485-547 | yield, sleep and exit change the state, yield and sleep leave the running processes, and yield alone queues the process, as the machine's steps that keep the invariant |
| ProcCode.Kernel.ExitProc | proc.c:285-300 | exit wakes exactly the sleepers on its parent's channel, and on init's if one of its children is a zombie, hands exactly its children to init, and becomes a zombie, as machine steps |
| Pipe.TestsAreExact | pipe.c:85-106 | the full and empty tests on wrapping counters mean 512 bytes and none |
| Pipe.WriteAppends | pipe.c:93 | writing a byte appends it to the buffered bytes, also across the wrap of the counter |
| Pipe.ReadDrops | pipe.c:116 | reading a byte removes the first buffered one |
| Pipe.PipeOrder | pipe.c:79-121 | in every interleaving of readers and writers that block mid-call, bytes read and then bytes buffered are the bytes written, at most PIPESIZE are buffered, and the bytes of one call keep their order |
| Pipe.PipeObject.Pipewrite | pipe.c:79-98 | writes a stretch of its buffer in order, sleeps exactly on a full pipe with a reader, returns -1 exactly on a full pipe that is closed or if killed; afterwards a writer sleeps only while the pipe is full and can be read, and a reader only while it is empty and can be written; the last part fails if and only if a reader slept, the writer was killed or the reading end closed, and more than PIPESIZE bytes were left to write |
| Pipe.PipeObject.Piperead | pipe.c:101-121 | returns the first buffered bytes in order, as many as asked for or all; sleeps, or returns -1 if killed, exactly on an empty pipe with a writer; no sleeper is left behind |
| Pipe.PipeObject.Pipeclose | pipe.c:60-75 | closes one end and wakes everyone who waits for it; the pipe is freed exactly if both ends are closed, and then nobody sleeps on it |
| Pipe.ReaderNotWoken | pipe.c:85-91 | a pipe that is full while a reader sleeps on it |
| Grep.HereIsLanguage | grep.c:85-106 | the recursion accepts exactly the texts with a beginning in the language of the parsed pattern, all of the text after a final $ |
| Grep.PrintParse | grep.c:85-96 | printing the items of a parsed pattern gives the pattern, for every pattern |
| Grep.ParsePrint | grep.c:85-96 | parsing a printed list of items gives the list, for every list that a pattern can mean |
| Grep.MatchHere | grep.c:85-96 | the code of matchhere is that recursion, and terminates |
| Grep.MatchStar | grep.c:99-106 | the loop finds a split exactly if some number of repetitions leaves a rest that matches |
| Grep.Match | grep.c:73-82 | true exactly if some substring, anchored as ^ and $ ask, is in the language of the pattern |

## Left out

- Hardware and drivers (ide.c, memide.c, uart.c, lapic.c and the like): the disk is a block map whose block writes are atomic.
- spinlock.c: acquire and release are atomic; interrupt flags are not modelled.
- swtch, trap frames and user code: a context switch is a step under ptable.lock.
- LogMachine: calls that log more than MAXOPBLOCKS new blocks are not steps of the machine, since the log makes no promise to them.
- FsCode.FileSystem.Writei: the on-disk layout of an inode inside its block is not modelled; iupdate copies the record. The T_DEV branch of readi and writei is not modelled.
- FsCode.FileSystem.Bfree: reading the superblock again from block 1 is not modelled; the layout is fixed.
- Directory and path functions, ialloc, iget and iput of fs.c: they add easier members on top of readi and writei.
- SchedCode.Scheduler.ExtractProc: for keys that differ from the accumulators only the result and the pools are stated, not the new order; the original promises nothing there.
- SchedQueues.QueuePool.Enqueue: append sets last to the new link instead of walking from it with getLast; the link has no successor.
- SchedCode.InitSchedDS: mymalloc, which carves the cells out of pages, is not modelled; cells are new objects.
- Umalloc.Allocator.Malloc: sbrk is a parameter; it returns addresses aligned to units at or above all earlier ones and below KERNBASE. Nothing is stated about the heap after a stray result.
- VmCode.Machine.Kfree: the alignment test of its pointer cannot fail here, since pages are frame numbers.
- VmCode.Machine.Mappages: physical addresses are page-aligned and the range is not empty, as in all its calls.
- VmCode.Machine.Deallocuvm: old sizes above KERNBASE are not modelled; no caller passes one, and the original would then free pages of kernel mappings.
- VmCode.Machine.Allocuvm: if pages of the range were present before, only the panic, the new pages and the invariants are stated.
- inituvm, loaduvm, clearpteu, uva2ka, copyout and switchuvm of vm.c: they add easier members.
- ProcTable: accumulators and the order of the queue are not modelled; which waiting process is chosen does not matter for the theorem. Round_Robin_Scheduler is not called by the original and is not modelled.
- ProcCode.Kernel.ExitProc: closing files and releasing the working directory, before the lock is taken, are not modelled.
- ProcTable.SchedHoldsLockAndLeft: the tests of ncli and of the interrupt flag are not modelled.
- ProcCode.Kernel.Scan: kernel stack, page directory, name and exit status of the child are not modelled.
- Pipe.PipeObject.Pipewrite: a stretch of the call under p->lock is one call of the method; kill, which only takes sleepers away, is not a method.
- The line buffering loop of grep, the shell, mkfs and the other user programs.
