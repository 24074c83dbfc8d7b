# A verified model of the Linux 0.11 kernel core

Dafny models of the machine-independent logic of the Linux 0.11 kernel, with proofs of what it is for. `dafny verify
dfyconfig.toml` checks everything.

| files | what they model |
|---|---|
| `Paging*.dfy` | copy-on-write page tables: `mm/memory.c` and `copy_mem` of `kernel/fork.c` |
| `Elevator.dfy`, `BlockRequests.dfy` | the block request queue: `ll_rw_blk.c`, `blk.h` |
| `BufferLists.dfy`, `BufferTable.dfy`, `BufferCache.dfy`, `BufferIndex.dfy`, `BufferProgress.dfy` | the buffer cache: `fs/buffer.c` |
| `Zones.dfy`, `ZoneTree.dfy`, `FileBytes.dfy`, `Truncate.dfy`, `FsRuns.dfy`, `FsRaces.dfy`, `FsCode.dfy` | zones, block maps and file bytes: `bitmap.c`, `inode.c`, `file_dev.c`, `truncate.c` |
| `Bucket*.dfy` | the kernel allocator: `lib/malloc.c` |
| `SleepQueue.dfy`, `Timers.dfy`, `TimerCode.dfy`, `Dispatch.dfy` | wait queues, timers and dispatch: `kernel/sched.c` |
| `Basics.dfy` | optional values, counting, index-linked lists |
| `Pipe.dfy` | the pipe ring and its two users: `fs/pipe.c` |
| `ExecImage.dfy`, `ExecCode.dfy` | the argument and environment image: `fs/exec.c` |

Each component has the same shape. An immutable datatype is the state at one moment, and functions on it are the steps of
the code. A class holds the fields the code updates in place, as arrays (a C struct array is one array per field, a pointer
is an index, a null pointer is -1 or 0), and its methods, with the loops of the code, are proved to compute those functions.
Lemmas on the functions state what one step keeps and changes; induction over lists of steps turns them into statements
about every run and every interleaving. Ghost lists say what a linked structure holds; an invariant ties them to the links.

Conventions. Inline assembly is replaced by loops with contracts (scan of `mem_map`, first zero bit, copy and clear of a
page). Addresses are split into (directory entry, table entry) in the paging modules and are plain numbers elsewhere.
`panic` is an outcome, or a condition shown not to occur. Sleeping is either an outcome of a method (`make_request`) or a
point between two steps of a process (`getblk`, `sleep_on`, the pipe calls).

Where the code does less than one would expect:

- `write_verify` (`mm/memory.c:339-350`) runs at the start of a system call (`fs/read_write.c:64`), the store it prepares
  comes after sleeps. If `try_to_share` (`mm/memory.c:370-412`) shares the page in between, the store changes the memory of
  another task; a page absent at first may be shared by the fault of the store itself. `PagingKernelStore.SharedInBetween`
  and `AbsentInBetween` are the two cases, `StoreLeaks` and `PagingBootLeak.BootedStoreLeaks` instances, `RawStoreIff` the
  exact condition on a store, and `ShelteredRefines` says what runs are not affected.
- `sleep_on(&wait_for_request)` (`kernel/blk_drv/ll_rw_blk.c:131`) is called with interrupts enabled, and `end_request`
  (`kernel/blk_drv/blk.h:122`) wakes that queue. A wake-up after `*p = current` and before the store of the state leaves
  the task asleep with nothing leading to it. One between `tmp = *p` and `*p = current` with somebody on the queue makes
  the task wake that other task a second time, wherever it then sleeps (`SleepQueue.WakesStranger`).
  `SleepQueue.SplitSleepIff` is the exact condition for both.
- `_bmap` (`fs/inode.c:85-137`) does not look again after `new_block` has slept. Others may have filled the place, or may
  have truncated the file (`fs/namei.c:406`), so that the block that keeps the place has left the tree.
  `FsRaces.LateStoreIff` is the exact condition for a leak, `FsRaces.LateRunIff` the same over runs of the others,
  `FsRaces.TwoWritersLeak` and `FsRaces.TruncatedMeanwhile` are the two cases.
- `free_block` (`fs/bitmap.c:56-62`) does not give back the reference it took when somebody else holds the buffer
  (`BufferCache.LostIff`), which then is never re-used (`BufferCache.LostIsPinned`).
- `add_timer` (`kernel/sched.c:297-306`) does not subtract what is left of the new timer from the entry behind it, so
  later timers fire late. `Timers.LaterTimerPutOff` is an instance, `Timers.OthersKeptIff` the exact condition.
- `sys_nice` (`kernel/sched.c:384-389`) can leave a counter at or above twice the new priority. `Dispatch.NiceBreaksBound`
  is an instance, `Dispatch.NiceBelowIff` the exact condition.
- `new_block` (`fs/bitmap.c:90-95`) sets a bit before it checks that the bit stands for a zone of the device
  (`Zones.FailedNewBlockIff`). Statements about zones are therefore about zones below `s_nzones`.
- `insert_into_queues` (`fs/buffer.c:165`) stores through `b_next` even if the chain was empty; the model makes that store
  only if there is a next buffer.
- The test for oversized arguments (`fs/exec.c:128`) compares an unsigned difference with 0 and never fails; that the
  strings fit is a precondition.

## Model

| member | source | states |
|---|---|---|
| `PagingKernelStore.ShelteredRefines` | linux-0.11/mm/memory.c:188-412 | Over every run of forks, user stores, `write_verify` calls and the kernel stores that come later in the same system call, page faults, page sharing, exec, exit and kernel page use, in which nobody shares a page between its `write_verify` and those stores and no task forks inside such a call: what every task reads at every linear page is what it would read if fork had copied every page at once and nothing were ever shared |
| `PagingKernelStore.RawStoreIff` | linux-0.11/mm/memory.c:339-350 | A kernel store that changes a word leaves every other linear page of every task as it is if and only if `mem_map` counts the page once |
| `PagingKernelStore.SharedInBetween` | linux-0.11/fs/read_write.c:55-77 | `write_verify` does nothing to a page mapped once and writable; if `try_to_share` then shares it and the kernel stores to it afterwards, the store shows in the other task |
| `PagingKernelStore.AbsentInBetween` | linux-0.11/mm/memory.c:370-412 | The same for a page absent at `write_verify`, which then does nothing: the fault of the store shares a page of another task, and the store shows there |
| `PagingKernelStore.SharedRunFails` | linux-0.11/mm/memory.c:370-412 | Each such run of three steps ends, if the word stored is a new one, in memory that eager copying would not give |
| `PagingKernelStore.StoreLeaks` | linux-0.11/mm/memory.c:370-412 | A concrete state, in the invariant, and such a run from it |
| `PagingBootLeak.BootedStoreLeaks` | linux-0.11/mm/memory.c:188-412 | From every state `mem_init` leaves with five free pages, a run of two forks and a page fault leads to a state from which the three steps give memory that eager copying would not |
| `PagingKernelStore.StaysVerified` | linux-0.11/mm/memory.c:339-350 | Once `write_verify` has left the entry of a page absent or writable, every operation of any task leaves it so, except a fork to or from that task and a sharing of that page |
| `PagingRuns.RunIsGood` | linux-0.11/mm/memory.c:87-412 | Every run, unsheltered kernel stores included, keeps the invariant |
| `PagingRuns.VerifyStep` | linux-0.11/mm/memory.c:339-350 | `write_verify` changes no view; unless memory was out, the entry of the page, if present, is writable afterwards |
| `PagingRuns.RunRefines` | linux-0.11/mm/memory.c:188-412 | Over every run in which each kernel store finds its page counted once, copy-on-write reads like eager copying |
| `PagingRuns.StepRefines` | linux-0.11/mm/memory.c:188-412 | One operation keeps the invariant and, if it is no kernel store to a page counted more than once, is matched by one step of the machine in which fork copies eagerly |
| `PagingRuns.ReachableFacts` | linux-0.11/mm/memory.c:87-412 | In every state reachable from `mem_init`: the count of a main-memory page is the number of entries mapping it, plus one if it is a page table, plus kernel holdings; a writable task entry maps a page of count exactly 1 that nothing else maps; the count of a mapped page stays below the number of task slots |
| `PagingRuns.BootedIsGood` | linux-0.11/mm/memory.c:477-492 | The state `mem_init` leaves satisfies the invariant |
| `PagingRuns.ForkStep` | linux-0.11/kernel/fork.c:47-82 | A fork is matched by an eager copy of the address space, or, without memory, by no change |
| `PagingMemory.ForkIff` | linux-0.11/mm/memory.c:188-267 | A fork succeeds if and only if a page is free for each table that the parent has within its limit; it takes exactly those, and none if it fails |
| `PagingMemory.ForkWords` | linux-0.11/mm/memory.c:233-262 | After a fork each word of the tables of the child is that of the parent without the write bit, and absent where that is absent |
| `PagingMemory.LoadIff` | linux-0.11/mm/memory.c:275-297 | A fault is served with a new page if and only if there are that page and, where the table is missing, one more; it takes exactly those |
| `PagingMemory.ShareIff` | linux-0.11/mm/memory.c:370-412 | `try_to_share` shares exactly a present page of main memory whose dirty bit is clear, and is out of memory exactly when a table is missing and no page is free for it |
| `PagingMemory.PutWord` | linux-0.11/mm/memory.c:275-297 | `put_page` writes the page address with the user, the write and the present bit and no other; a new table gets the same bits |
| `PagingMemory.UnWpWord` | linux-0.11/mm/memory.c:299-316 | `un_wp_page` adds the write bit alone for the only user of a page; otherwise the entry is the address of the copy with the three low bits |
| `PagingRuns.WriteStep` | linux-0.11/mm/memory.c:299-337 | A store by a user, with its write fault, changes the one word of the one linear page it names, in one address space only |
| `PagingRuns.TeardownStep` | linux-0.11/mm/memory.c:135-161 | exec and exit empty exactly the address space of their own task slot |
| `PagingInvariant.TableIsAlone` | linux-0.11/mm/memory.c:93-161 | A frame used as a page table has count 1 and is mapped by no task |
| `PagingInvariant.SoleMapper` | linux-0.11/mm/memory.c:299-316 | A page of count 1 that a task maps is referred to by nothing else |
| `PagingInvariant.OthersReadOnly` | linux-0.11/mm/memory.c:188-267 | If a page has a second mapping, no other mapping of it is writable |
| `PagingInvariant.CountBound` | linux-0.11/kernel/fork.c:47-82 | All mappings of a page sit at one offset of different task slots, so its count is at most the number of slots less one and never reaches the mark of pages outside main memory |
| `PagingInvariant.AddMapping` | linux-0.11/mm/memory.c:188-267 | Mapping one more slot to a page, both entries read-only and the count raised by one, keeps the invariant |
| `PagingInvariant.EntryFreed` | linux-0.11/mm/memory.c:119-161 | Clearing an entry and giving its page back keeps the invariant; `free_page` cannot panic |
| `PagingInvariant.TableDropped` | linux-0.11/mm/memory.c:119-161 | Giving an empty table back keeps the invariant; `free_page` cannot panic |
| `PagingInvariant.PageTaken` | linux-0.11/mm/memory.c:93-113 | The page `get_free_page` hands out was referred to by nothing; afterwards the kernel holds it |
| `PagingInvariant.RawStored` | linux-0.11/mm/memory.c:339-350 | A store that ignores write protection shows at every linear page that maps the page and nowhere else |
| `PagingInvariant.Stored` | linux-0.11/mm/memory.c:299-316 | A store to a page counted once reaches the linear page it names and no other |
| `PagingRefinement.TablesFreed` | linux-0.11/mm/memory.c:135-161 | `free_page_tables` unmaps exactly the range it is given and keeps every other view |
| `PagingRefinement.TablesCopied` | linux-0.11/mm/memory.c:188-267 | `copy_page_tables`: the child range reads like the parent range, or memory ran out part way; outside the child range nothing but write bits changes |
| `PagingRefinement.RolledBack` | linux-0.11/kernel/fork.c:77-80 | Two states that differ only in write bits of entries and in contents of pages, and have no table in the range of the child, have the same counts: what makes the rollback exact |
| `PagingRefinement.MemCopied` | linux-0.11/kernel/fork.c:47-82 | `copy_mem`: on success the child reads what the parent reads, page for page; out of memory, `mem_map` is restored exactly, no table is left in the child range, and every address space reads as before |
| `PagingRefinement.Unprotected` | linux-0.11/mm/memory.c:299-316 | `un_wp_page` changes no address space; afterwards the entry is writable, or memory was out and nothing changed |
| `PagingRefinement.CopyReordered` | linux-0.11/mm/memory.c:233-262 | Writing the entry of the child before protecting that of the parent gives the same state as the other order |
| `PagingRefinement.PagePut` | linux-0.11/mm/memory.c:275-297 | `put_page` makes the held page readable at its address and nowhere else, or fails for want of a table |
| `PagingRefinement.PageLoaded` | linux-0.11/mm/memory.c:352-360 | A fault served with a fresh page shows its contents at that address only; without memory nothing is kept |
| `PagingRefinement.PageShared` | linux-0.11/mm/memory.c:370-412 | `try_to_share` gives the current task a read-only view of the page of the other task at the same offset, and never panics on an absent entry |
| `PagingCode.MemoryManager.constructor` | linux-0.11/mm/memory.c:477-492 | `mem_init` leaves a state in the invariant |
| `PagingCode.MemoryManager.GetFreePage` | linux-0.11/mm/memory.c:93-113 | The backward scan takes the highest free page, cleared, with count 1; 0 if there is none |
| `PagingCode.MemoryManager.FreePageAt` | linux-0.11/mm/memory.c:119-129 | `free_page` lowers one count |
| `PagingCode.MemoryManager.FreePageTables` | linux-0.11/mm/memory.c:135-161 | The nested loops compute the specified teardown of the range |
| `PagingCode.MemoryManager.CopyPageTables` | linux-0.11/mm/memory.c:188-267 | The nested loops compute the specified sharing copy, failure included |
| `PagingCode.MemoryManager.CopyTableEntries` | linux-0.11/mm/memory.c:233-262 | The inner loop shares each present entry, protecting both and counting main-memory pages only |
| `PagingCode.MemoryManager.CopyAddressSpace` | linux-0.11/kernel/fork.c:47-82 | `copy_mem`, with the rollback through `free_page_tables` |
| `PagingCode.MemoryManager.UnWpPage` | linux-0.11/mm/memory.c:299-316 | `un_wp_page` in the order of the code: redirect, then copy |
| `PagingCode.MemoryManager.VerifyWrite` | linux-0.11/mm/memory.c:339-350 | `write_verify` splits a shared page before the kernel writes to it |
| `PagingCode.MemoryManager.PlacePage` | linux-0.11/mm/memory.c:275-297 | `put_page`, with the table made on demand |
| `PagingCode.MemoryManager.GetEmptyPage` | linux-0.11/mm/memory.c:352-360 | `get_empty_page`; the page is given back if it cannot be placed |
| `PagingCode.MemoryManager.ShareFrom` | linux-0.11/mm/memory.c:370-412 | `try_to_share` with each of its early exits |
| `Elevator.RankOrders` | linux-0.11/kernel/blk_drv/blk.h:40-43 | IN_ORDER is the strict order of one number per (cmd, dev, sector) |
| `Elevator.InsertIsElevate` | linux-0.11/kernel/blk_drv/ll_rw_blk.c:80-86 | The insertion loop computes the two-sweep elevator: into the current sweep if the key is still ahead of the head, else into the next one, each sorted |
| `Elevator.InsertKeepsSweeps` | linux-0.11/kernel/blk_drv/ll_rw_blk.c:80-86 | Insertion keeps two strictly ascending sweeps and the head |
| `Elevator.SortedInsertSorts` | linux-0.11/kernel/blk_drv/ll_rw_blk.c:80-86 | Inserting into an ascending sweep a key not in it keeps it ascending |
| `Elevator.EventKeepsQueue` | linux-0.11/kernel/blk_drv/blk.h:109-125 | Arrivals, sector advances of the head and completions keep the queue in at most two strictly ascending sweeps of distinct keys; an arrival never moves the head |
| `Elevator.EventShortensWait` | linux-0.11/kernel/blk_drv/ll_rw_blk.c:80-86 | No event lengthens the wait of a queued request, measured in the key space; a completion shortens it |
| `Elevator.BoundedWaiting` | linux-0.11/kernel/blk_drv/ll_rw_blk.c:80-86 | While a request is pending, however many others arrive, no more requests complete than its wait when it was looked at |
| `Elevator.WaitBound` | linux-0.11/kernel/blk_drv/ll_rw_blk.c:80-86 | That wait is less than twice the size of the key space, whatever is queued |
| `BlockRequests.LocksKeepKeysDistinct` | linux-0.11/kernel/blk_drv/ll_rw_blk.c:107-144 | A request filled for a locked buffer that is not queued is for a block that is not queued |
| `BlockRequests.RequestAdded` | linux-0.11/kernel/blk_drv/ll_rw_blk.c:66-88 | Splicing a filled slot in at the right place keeps the linked list, the locks and the key order |
| `BlockRequests.HeadFinished` | linux-0.11/kernel/blk_drv/blk.h:109-125 | Completing the head keeps list, locks and key order; the buffer of the head is unlocked and says how the transfer ended, the slot of the head is free, and no other buffer and no other slot changes |
| `BlockRequests.HeadAdvanced` | linux-0.11/kernel/blk_drv/hd.c:260 | The move of the head from the first to the second sector of its block keeps the queue in order |
| `BlockRequests.Device.constructor` | linux-0.11/kernel/blk_drv/ll_rw_blk.c:159-171 | All slots free, no queue |
| `BlockRequests.Device.AddRequest` | linux-0.11/kernel/blk_drv/ll_rw_blk.c:66-88 | The keys of the linked queue afterwards are the elevator insertion of the new key into the old ones |
| `BlockRequests.Device.FindPlace` | linux-0.11/kernel/blk_drv/ll_rw_blk.c:80-84 | The pointer scan stops where the specified scan stops |
| `BlockRequests.Device.FillRequest` | linux-0.11/kernel/blk_drv/ll_rw_blk.c:112-144 | From `repeat` on: a read may use any slot, a write only the lower two thirds; the request is queued exactly when such a slot is free, the keys of the queue then being the elevator insertion of the new one and the buffer no longer dirty; with none, a read-ahead unlocks and gives up and others sleep |
| `BlockRequests.Device.MakeRequest` | linux-0.11/kernel/blk_drv/ll_rw_blk.c:90-145 | Exactly when each thing happens: a locked buffer makes a read-ahead return and others sleep; a clean write, an up-to-date read, or a read-ahead without a slot unlocks and returns; any other request without a slot sleeps with the buffer locked; in all other cases a slot that was free, of the lower two thirds for a write, holds the request, which is queued in elevator order with its buffer locked; no taken slot is ever off the list |
| `BlockRequests.Device.EndRequest` | linux-0.11/kernel/blk_drv/blk.h:109-125 | The head leaves the queue; its buffer is unlocked, with the flag for up to date set as told and dirt, device and block kept; its slot is free, so that there is one for a read; every other buffer and slot is as before, and every taken slot is on the list if it was so before |
| `BlockRequests.Device.AdvanceHead` | linux-0.11/kernel/blk_drv/hd.c:260 | The sector of the head goes up by one; every buffer, every other slot and the list are as before |
| `BlockRequests.Device.FinishRead` | linux-0.11/kernel/blk_drv/hd.c:260-265 | The last interrupt of a read: the same, the sector of the request having been advanced once more |
| `BufferLists.Removed` | linux-0.11/fs/buffer.c:133-149 | `remove_from_queues` on a whole index takes the buffer off its chain and off the ring and leaves every other buffer where it belongs |
| `BufferLists.InsertedWhole` | linux-0.11/fs/buffer.c:151-166 | `insert_into_queues` of a buffer that is on no list makes the index whole again: on the chain of its hash, at the end of the ring |
| `BufferLists.ChainUnlinked` | linux-0.11/fs/buffer.c:133-143 | Unlinking from a chain keeps next and previous links mutually inverse |
| `BufferLists.RingUnlinked` | linux-0.11/fs/buffer.c:143-149 | Unlinking from the ring keeps the ring, with `free_list` moved on if it pointed there |
| `BufferLists.RingAppended` | linux-0.11/fs/buffer.c:153-157 | Appending puts the buffer just before `free_list` |
| `BufferLists.XorDigits` | linux-0.11/fs/buffer.c:130-131 | The hash is on the exclusive or, digit by digit |
| `BufferTable.LinksInRange` | linux-0.11/fs/buffer.c:133-149 | No stray pointer is followed, and the panic for a corrupted free list cannot happen |
| `BufferTable.Buffers.constructor` | linux-0.11/fs/buffer.c:350-392 | `buffer_init`: every buffer unused and once on the ring, every chain empty |
| `BufferTable.Buffers.FindBuffer` | linux-0.11/fs/buffer.c:168-176 | The search of one chain answers like a search of all buffers |
| `BufferTable.Buffers.RemoveFromQueues` | linux-0.11/fs/buffer.c:133-149 | The buffer is on no list; the other buffers are on theirs, in the same order |
| `BufferTable.Buffers.InsertIntoQueues` | linux-0.11/fs/buffer.c:151-166 | The index is whole again |
| `BufferTable.Buffers.Reassign` | linux-0.11/fs/buffer.c:245-252 | An unused, unlocked, clean buffer is given to a block no buffer holds: the index stays whole and no block gets two buffers |
| `BufferTable.Buffers.PickVictim` | linux-0.11/fs/buffer.c:215-225 | The scan finds an unused buffer, a dirty one only if all unused ones are dirty, a locked one only if all unused ones like it in that are locked, and among equals the one nearest the front of the free list; none only if every buffer is in use |
| `BufferCache.RunIsStore` | linux-0.11/fs/buffer.c:185-283 | For every interleaving of any number of processes in `getblk`, `bread`, `brelse`, `sys_sync`, `sync_dev`, the discard in `free_block`, and transfers that take the data at any moment, cache and disk together are a flat map from blocks to data changed by the stores alone (a discarded block takes the value the disk has), and every holder sees the value of that map |
| `BufferCache.StepIsStore` | linux-0.11/fs/buffer.c:185-283 | Every step of any process keeps the invariant (no block in two buffers, a clean unlocked up-to-date buffer equals the disk, counts equal holders and lost references) and changes the map only by a store or a discard |
| `BufferCache.Renaming` | linux-0.11/fs/buffer.c:230-252 | A buffer changes its block only when unused, unlocked and clean, and only for a block no buffer holds |
| `BufferCache.EvictionInvisible` | linux-0.11/fs/buffer.c:243-252 | Giving a clean unlocked buffer to an uncached block changes no value of the map |
| `BufferCache.HashWaitStep` | linux-0.11/fs/buffer.c:185-198 | The check after the wait of `get_hash_table` succeeds: a counted buffer keeps its block |
| `BufferCache.VictimStep` | linux-0.11/fs/buffer.c:230-252 | The re-validations of `getblk` after each sleep suffice |
| `BufferCache.SyncStep` | linux-0.11/fs/buffer.c:44-84 | One step of `sync_dev` or `sys_sync`, the wait for a request slot with the lock held included, keeps the invariant and the map |
| `BufferCache.PassMoves` | linux-0.11/fs/buffer.c:44-84 | A sync moves on one buffer at a time and ends only behind the last: the first pass of `sync_dev` with the second, the second with a new look at the victim, `sys_sync` with its return |
| `BufferCache.PassWrites` | linux-0.11/fs/buffer.c:53-57 | A sync goes past a buffer of its device, any buffer for `sys_sync`, only when that is clean; if it was dirty, its present data is queued for writing |
| `BufferCache.PassCleans` | linux-0.11/fs/buffer.c:61-84 | Over every run and interleaving each buffer that is of the device when a pass begins has been clean at some moment before the pass is over |
| `BufferCache.SysSyncCleans` | linux-0.11/fs/buffer.c:44-59 | The same for every buffer before `sys_sync` returns |
| `BufferCache.ReadStep` | linux-0.11/fs/buffer.c:269-283 | `bread` returns only an up-to-date buffer |
| `BufferCache.CompleteStep` | linux-0.11/kernel/blk_drv/blk.h:109-125 | A completed transfer keeps the invariant and the map, whatever data the controller took if the buffer was stored to meanwhile |
| `BufferCache.ForgetStep` | linux-0.11/fs/bitmap.c:56-66 | The discard in `free_block` keeps the invariant; if it is the only holder the block takes the value of the disk, otherwise nothing is discarded |
| `BufferCache.LostIff` | linux-0.11/fs/bitmap.c:56-62 | `free_block` gives back the reference that `get_hash_table` took if and only if no other process refers to the buffer and none has been lost on it before |
| `BufferCache.TwoHolders` | linux-0.11/fs/bitmap.c:57-62 | An instance: a block is freed while another process has its buffer; when that one releases it too, the count is still 1 with nobody holding it |
| `BufferCache.LostIsPinned` | linux-0.11/fs/bitmap.c:58-62 | A buffer with a lost reference keeps its block and a positive count at every later step of any process |
| `BufferIndex.RunKeepsIndex` | linux-0.11/fs/buffer.c:133-166 | Over every run and every interleaving the hash chains and the free ring are whole: each buffer with a device on exactly the chain of its hash, links mutually inverse, every buffer on the ring once |
| `BufferIndex.StepKeepsIndex` | linux-0.11/fs/buffer.c:245-252 | Each step keeps them whole and naming the blocks the buffers hold |
| `BufferIndex.FindOnChain` | linux-0.11/fs/buffer.c:168-176 | In each such state a search of the chain of a block is a search of all buffers |
| `BufferIndex.FreshAgrees` | linux-0.11/fs/buffer.c:350-392 | The lists `buffer_init` leaves are whole and agree with its buffers |
| `BufferCache.HolderSeesStore` | linux-0.11/fs/buffer.c:269-283 | A holder reads the value of the map |
| `BufferCache.FreshIsGood` | linux-0.11/fs/buffer.c:350-392 | The cache starts in the invariant |
| `BufferProgress.OwnRunEnds` | linux-0.11/fs/buffer.c:208-283 | A call left alone, with transfers completing, takes at most 8n + 12 steps when there are n buffers, and then has the buffer of the block it was made for, up to date and counted |
| `BufferProgress.CallEnds` | linux-0.11/fs/buffer.c:208-283 | The same from the moment of the call; a call of `getblk` never ends without a buffer |
| `BufferProgress.StepEnds` | linux-0.11/fs/buffer.c:208-253 | Every step of `getblk`, `bread`, `free_block` or a sync that has nothing to wait for brings the call nearer to its end: `repeat` is not a loop without end |
| `BufferProgress.CallKept` | linux-0.11/fs/buffer.c:208-283 | Whatever other processes do in between, a call goes on for the same block |
| `BufferProgress.SomebodyGoesOn` | linux-0.11/fs/buffer.c:38-44 | While a call is not over and does not wait for a buffer nobody uses, a transfer is queued or some process can go on: nobody waits for ever in `wait_on_buffer` |
| `BufferProgress.RunOwned` | linux-0.11/fs/buffer.c:38-84 | Over every run a locked buffer has its transfer queued or a process that is about to queue it |
| `BufferProgress.SyncReachesDisk` | linux-0.11/fs/buffer.c:46-84 | Once a pass of `sync_dev` or `sys_sync` over the device of a block is over, and the transfer of the block too, the disk has what the system held for it when the pass began, if nobody changed it meanwhile; over every interleaving |
| `BufferProgress.SleepsIffNoneFree` | linux-0.11/fs/buffer.c:215-229 | `getblk` sleeps on `buffer_wait` exactly when the block is not cached and every buffer is in use |
| `BufferProgress.SlotDecides` | linux-0.11/kernel/blk_drv/ll_rw_blk.c:126-144 | A transfer is queued at once if a request slot is free; otherwise the process waits with the buffer locked and queues it when one is |
| `BufferProgress.CompleteUnlocks` | linux-0.11/kernel/blk_drv/blk.h:103-125 | A completed transfer unlocks its buffer, which is up to date and, if not dirty, equal to the disk; no other block or buffer changes |
| `BufferProgress.ReleaseGivesBack` | linux-0.11/fs/buffer.c:255-263 | `brelse` gives back one reference and leaves one holder fewer |
| `FsRuns.RunIsFlat` | linux-0.11/fs/file_dev.c:17-90 | Over every run of writes to and truncations of any files, one call after another and with no buffers held between calls, the files are flat byte sequences changed by nothing but those calls, and a zone is marked used exactly when one place of one file names it: no zone leaks and none is shared |
| `FsRuns.MadeIsQuiet` | linux-0.11/fs/bitmap.c:75-105 | A freshly made file system, of any geometry that fits the bitmap, is such a starting state, with every file empty |
| `FsRaces.LateStoreIff` | linux-0.11/fs/inode.c:85-137 | The store that `_bmap` makes after `new_block` has slept, whatever has become of the word it goes to, leaks no zone if and only if that word still keeps a place of some file, and the place is empty |
| `FsRaces.HeldStoreIff` | linux-0.11/fs/inode.c:98-136 | With the block held since the look: if and only if the block still keeps the very place, and the place is empty; when the block has left the tree, both it and the new zone are used and named by no file |
| `FsRaces.LateRunIff` | linux-0.11/fs/inode.c:72-137 | The same after every run of whole writes and truncations by others while the writer sleeps |
| `FsRaces.TruncatedMeanwhile` | linux-0.11/fs/namei.c:405-406 | If the file is truncated meanwhile, the word is still empty, and the new zone and the block held are both lost |
| `FsRaces.TwoWritersLeak` | linux-0.11/fs/inode.c:85-137 | If two writers of one missing block are both past the look before either stores, the zone of the first stays marked used and no place of any file names it |
| `FsRuns.StepIsFlat` | linux-0.11/fs/file_dev.c:48-90 | One call makes the matching change of flat files; a write that falls short leaves the disk full |
| `FsRuns.RunSettled` | linux-0.11/fs/truncate.c:47-64 | Writes and truncations by others, also of the same file, leave used what a process in the middle of a call has in its hands, name it in no new place, and leak nothing else |
| `FsRuns.AllocNoLeak` | linux-0.11/fs/inode.c:85-137 | Allocation at a place keeps every used zone named by some file |
| `FsRuns.CreateNoLeak` | linux-0.11/fs/inode.c:72-148 | `create_block` leaks no zone, even when it runs out of zones after allocating an indirect block |
| `FsRuns.WriteNoLeak` | linux-0.11/fs/file_dev.c:48-90 | `file_write` leaks no zone |
| `FsRuns.TruncateNoLeak` | linux-0.11/fs/truncate.c:47-64 | truncate leaks no zone when nobody holds a buffer |
| `ZoneTree.NewBlockEffect` | linux-0.11/fs/bitmap.c:75-105 | `new_block` hands out a data zone that was free, marked used and zero-filled, or 0; a bit set for no zone changes the state of no zone |
| `Zones.FailedNewBlockIff` | linux-0.11/fs/bitmap.c:90-95 | A call of `new_block` that returns 0 has still changed the bitmap if and only if some bit was clear |
| `ZoneTree.SetPtrEffect` | linux-0.11/fs/inode.c:86-137 | Storing a fresh zone number at an empty place fills that place and no other |
| `ZoneTree.AllocEffect` | linux-0.11/fs/inode.c:85-137 | Allocation at a place keeps every other place, and all zones distinct, in range and used |
| `ZoneTree.CreateBlockEffect` | linux-0.11/fs/inode.c:72-148 | `create_block` is a frame-exact map update: the block asked for has the zone returned, a fresh zero one if it had none, the map of every other block of every file is as before, and the invariant (all zones of all files distinct, in range, marked used) is kept; 0 only on a full disk |
| `ZoneTree.CreateExisting` | linux-0.11/fs/inode.c:72-148 | A block that has a zone keeps it, and nothing changes |
| `FileBytes.ChunkBytes` | linux-0.11/fs/file_dev.c:64-86 | Writing a chunk changes the bytes it covers and no other byte of any file |
| `FileBytes.CreateKeepsBytes` | linux-0.11/fs/file_dev.c:64-70 | Allocating a block changes no byte as read: a hole and a fresh block both read zero |
| `FileBytes.WriteEffect` | linux-0.11/fs/file_dev.c:48-90 | `file_write` replaces exactly the bytes it reports written, in this file and nowhere else, across any block boundaries; it stops short only on a full disk |
| `FileBytes.ReadAfterWrite` | linux-0.11/fs/file_dev.c:17-90 | Reading the range reported written gives the data written |
| `FileBytes.WriteKeepsTail` | linux-0.11/fs/file_dev.c:48-90 | If files read zero beyond their ends, they still do, and the gap between the old end and the write reads zero |
| `Truncate.FreedEffect` | linux-0.11/fs/bitmap.c:47-73 | Freeing a list of distinct used zones clears exactly the bits of those nobody else holds |
| `Truncate.NextFreeable` | linux-0.11/fs/bitmap.c:68-71 | The panic for a bit already cleared cannot happen along such a list |
| `Truncate.TreeReleasable` | linux-0.11/fs/truncate.c:47-64 | The zones truncate frees are all those of the file, each once |
| `Truncate.TruncateEffect` | linux-0.11/fs/truncate.c:47-64 | truncate frees exactly the zones of the file that nobody else holds; the file then has no block and reads zero; no other zone, file or byte changes |
| `Truncate.TruncateCount` | linux-0.11/fs/truncate.c:47-64 | With no other holders the number of used zones drops by exactly the size of the tree |
| `FsCode.FileSystem.FindFirstZero` | linux-0.11/fs/bitmap.c:31-45 | The first clear bit of one bitmap block |
| `FsCode.FileSystem.AllocZone` | linux-0.11/fs/bitmap.c:75-105 | The loop over the bitmap blocks computes the specified `new_block` |
| `FsCode.FileSystem.ReleaseZone` | linux-0.11/fs/bitmap.c:47-73 | `free_block`, which gives up on a zone somebody holds |
| `FsCode.FileSystem.MapBlock` | linux-0.11/fs/inode.c:72-138 | `_bmap` computes the specified look-up or allocation, through direct, indirect and double-indirect blocks |
| `FsCode.FileSystem.ReadFile` | linux-0.11/fs/file_dev.c:17-46 | The loop copies out exactly the bytes of the file from the position on, holes as zeros |
| `FsCode.FileSystem.WriteFile` | linux-0.11/fs/file_dev.c:48-90 | The loop computes the specified write at the end of the file or at the position; the new position is the old one plus the count, and the old one when appending |
| `FsCode.FileSystem.FreeInd` | linux-0.11/fs/truncate.c:11-27 | The loop frees the zones of an indirect block, then the block |
| `FsCode.FileSystem.FreeDind` | linux-0.11/fs/truncate.c:29-45 | The loop frees the trees of a double-indirect block, then the block |
| `FsCode.FileSystem.FreeDirect` | linux-0.11/fs/truncate.c:53-57 | The loop frees and clears the direct zones |
| `FsCode.FileSystem.TruncateInode` | linux-0.11/fs/truncate.c:47-64 | The loops compute the specified truncate |
| `BucketRuns.RunKeepsObject` | linux-0.11/lib/malloc.c:117-231 | For every run of malloc, free_s and writes of callers inside their own objects, an object that is not freed stays where it is and every word of it is what its holder last wrote |
| `BucketRuns.RunIsSafe` | linux-0.11/lib/malloc.c:117-231 | In every state of every such run each bucket page has a live object, its count is the number of these, its in-place free list is acyclic and holds the rest of page size over bucket size, live objects are long enough, and no address lies in two of them |
| `BucketRuns.RunConserves` | linux-0.11/lib/malloc.c:97-231 | Over every run each descriptor is on one of the lists and each page is in the pool, in use by a bucket or a descriptor page: none is lost |
| `BucketRuns.MallocEffect` | linux-0.11/lib/malloc.c:117-173 | malloc returns an object that was not live, of the length asked for or more, and touches no live object |
| `BucketRuns.PanicsIff` | linux-0.11/lib/malloc.c:127-158 | malloc panics if and only if the length is over a page, or no bucket of the right size has a free object and there are fewer pages than the one, or two with a page of descriptors, that it needs |
| `BucketRuns.MallocWhere` | linux-0.11/lib/malloc.c:139-169 | With an object free in a bucket of the right size malloc takes one of the first such bucket on the chain, and no page; otherwise it takes exactly the pages it needs |
| `BucketRuns.FreeEffect` | linux-0.11/lib/malloc.c:182-231 | free_s ends one object, touches no other, and returns the page of the object exactly when that was the last one on it |
| `BucketRuns.BucketIsSmallest` | linux-0.11/lib/malloc.c:127-134 | The bucket chosen is the smallest that is large enough; there is none exactly for more than a page |
| `BucketRuns.StartIsGood` | linux-0.11/lib/malloc.c:77-92 | The empty allocator satisfies the invariant |
| `BucketHeap.LiveApart` | linux-0.11/lib/malloc.c:117-173 | Live objects lie in their pages, do not overlap, are long enough, and never coincide with a free-list word |
| `BucketSteps.TakeKeeps` | linux-0.11/lib/malloc.c:168-170 | Taking the first free object keeps the invariant: acyclic free lists, each object of a page free or live, count plus free-list length equal to page size over bucket size |
| `BucketSteps.SparesKeeps` | linux-0.11/lib/malloc.c:97-115 | A new descriptor page keeps the invariant |
| `BucketSteps.FillKeeps` | linux-0.11/lib/malloc.c:152-166 | A new bucket page keeps it |
| `BucketSteps.PutKeeps` | linux-0.11/lib/malloc.c:205-207 | Putting an object back keeps it and writes in its own page only |
| `BucketSteps.RetireKeeps` | linux-0.11/lib/malloc.c:218-227 | Unlinking an empty bucket, freeing its page and making its descriptor spare keeps it |
| `BucketSteps.ScribbleKeeps` | linux-0.11/lib/malloc.c:117-173 | A caller writing inside its live object cannot damage any list |
| `BucketCode.Allocator.constructor` | linux-0.11/lib/malloc.c:77-92 | The empty allocator |
| `BucketCode.Allocator.FindBucket` | linux-0.11/lib/malloc.c:127-129 | The directory loop |
| `BucketCode.Allocator.FindFree` | linux-0.11/lib/malloc.c:139-141 | The chain loop finds the first descriptor with a free object, and none if and only if no bucket of that size has one |
| `BucketCode.Allocator.InitBucketDesc` | linux-0.11/lib/malloc.c:97-115 | The loop makes 256 linked descriptors in front of the spare list; fails only without a page |
| `BucketCode.Allocator.LinkObjects` | linux-0.11/lib/malloc.c:159-164 | The loop threads the free list through the page |
| `BucketCode.Allocator.NewBucket` | linux-0.11/lib/malloc.c:146-167 | Fails exactly when `get_free_page` would |
| `BucketCode.Allocator.Malloc` | linux-0.11/lib/malloc.c:117-173 | malloc computes the specified call and panics exactly for a length over a page, or with no object free and too few pages |
| `BucketCode.Allocator.FindPage` | linux-0.11/lib/malloc.c:191-201 | The nested search finds the bucket page, if its size is at least the hint |
| `BucketCode.Allocator.Unlink` | linux-0.11/lib/malloc.c:209-224 | The bucket is unlinked from its chain whatever `prev` has become since the search |
| `BucketCode.Allocator.FreeS` | linux-0.11/lib/malloc.c:182-231 | free_s computes the specified call; it panics exactly when no bucket of at least the given size has the page |
| `BucketCode.PrevIsBefore` | linux-0.11/lib/malloc.c:213-215 | Only the descriptor before d can have d as its next, which is why the re-check of `prev` is enough |
| `SleepQueue.SplitSleepIff` | linux-0.11/kernel/sched.c:165-167 | With wake-ups by interrupts between `tmp = *p` and `*p = current`, and between that and the store of the state: all sleepers are afterwards on proper chains if and only if none of the later ones woke the queue of the task, and none of the earlier ones did or the queue was empty. After a later one no variable leads to the task; after an earlier one its own variable names a task that is awake |
| `SleepQueue.WakesStranger` | linux-0.11/kernel/sched.c:157-200 | A run with such an earlier wake-up, from the start: a task is made runnable while it sleeps on another queue that nobody has woken |
| `SleepQueue.OrphanSleepsOn` | linux-0.11/kernel/sched.c:157-200 | A sleeper no variable leads to stays asleep and unreachable over every run of sleeps, wake-ups and resumptions |
| `SleepQueue.NoLostWakeUp` | linux-0.11/kernel/sched.c:157-171 | Once its queue has been woken, a sleeper with n others ahead of it is made runnable by exactly the (n+1)-th resumption on its chain, whatever else happens in the run, new sleepers included; the task that must resume is always runnable |
| `SleepQueue.WakeThenRun` | linux-0.11/kernel/sched.c:194-200 | After wake_up each task then asleep is runnable after exactly as many resumptions on its chain as it had others ahead |
| `SleepQueue.RunKeeps` | linux-0.11/kernel/sched.c:157-200 | In every reachable state the sleepers are divided among acyclic chains of saved links that start at a queue head or at a woken task that has not yet resumed |
| `SleepQueue.OneChain` | linux-0.11/kernel/sched.c:157-171 | Each sleeper is on exactly one such chain, once |
| `SleepQueue.OnlySleepersRoused` | linux-0.11/kernel/sched.c:157-200 | wake_up and a task leaving sleep_on change the state of nobody but a sleeper of the same queue |
| `SleepQueue.MoveAhead` | linux-0.11/kernel/sched.c:157-200 | A resumption on its chain wakes the first sleeper or brings each other one place nearer |
| `SleepQueue.OthersKeepAhead` | linux-0.11/kernel/sched.c:157-200 | Nothing else changes how many are ahead of a sleeper whose queue has been woken |
| `SleepQueue.StartIsGood` | linux-0.11/kernel/sched.c:157-200 | With nobody asleep the invariant holds |
| `SleepQueue.Scheduler.SleepOnEnter` | linux-0.11/kernel/sched.c:157-168 | sleep_on up to schedule(), with the null queue and the panic for task 0 |
| `SleepQueue.Scheduler.SleepOnExit` | linux-0.11/kernel/sched.c:169-171 | sleep_on after schedule() |
| `SleepQueue.Scheduler.WakeUpFirst` | linux-0.11/kernel/sched.c:194-200 | wake_up |
| `Timers.NewcomerExpiry` | linux-0.11/kernel/sched.c:278-309 | add_timer gives the newcomer exactly the expiry asked for |
| `Timers.OthersExpiry` | linux-0.11/kernel/sched.c:278-309 | Entries before the newcomer keep their expiry; every later one is put off by exactly the residual wait of the newcomer |
| `Timers.OthersKeptIff` | linux-0.11/kernel/sched.c:278-309 | The pending timers all keep their expiry if and only if the newcomer is due after all of them |
| `Timers.LaterTimerPutOff` | linux-0.11/kernel/sched.c:297-306 | A concrete list in which an added timer delays a pending one from 10 ticks to 14 |
| `Timers.InsertPlaces` | linux-0.11/kernel/sched.c:297-306 | The swapping loop is an insertion at one place, and all waits stay positive |
| `Timers.TickEffect` | linux-0.11/kernel/sched.c:325-335 | A tick calls at most one timer and brings each other one exactly one tick nearer |
| `Timers.HandlerAdds` | linux-0.11/kernel/sched.c:327-335 | Whatever timers a handler adds, the loop of do_timer then stops |
| `Timers.RunFires` | linux-0.11/kernel/sched.c:278-335 | Over every run a pending timer is called exactly once, with its own function, at its expiry plus what later additions put it off: never early |
| `Timers.CalledOnce` | linux-0.11/kernel/sched.c:278-335 | Over every run the functions called and those still pending are, as a multiset, those pending before and those asked for |
| `TimerCode.TimerList.AddTimer` | linux-0.11/kernel/sched.c:278-309 | The in-place loop computes the specified insertion; it panics exactly when all 64 slots hold pending timers; a slot is reused only after its timer was called |
| `TimerCode.TimerList.MoveDown` | linux-0.11/kernel/sched.c:297-306 | The loop that exchanges the contents of neighbouring slots is the insertion |
| `TimerCode.TimerList.DoTimer` | linux-0.11/kernel/sched.c:325-335 | The tick loop computes the specified tick |
| `Dispatch.Processor.CheckSignals` | linux-0.11/kernel/sched.c:117-126 | The first loop: SIGALRM is raised exactly for an alarm that has run out, which is cleared; no other signal changes; a task changes state, to running, exactly when it sleeps interruptibly with a signal it does not block, or one that cannot be blocked |
| `Dispatch.Processor.PickNext` | linux-0.11/kernel/sched.c:131-140 | The scan picks the runnable task of largest counter, the highest numbered of equals; task 0 only if none is runnable |
| `Dispatch.Processor.Recharge` | linux-0.11/kernel/sched.c:142-145 | Each counter becomes the priority and half of what was left, rounded down; nothing else changes |
| `Dispatch.LeadKept` | linux-0.11/kernel/sched.c:142-145 | A recharge keeps order among tasks of equal priority, and a lead of two ticks as a lead |
| `Dispatch.CreditGrows` | linux-0.11/kernel/sched.c:142-145 | A task that does not run gains with every recharge until it has one tick less than twice its priority |
| `Dispatch.ForkGrants` | linux-0.11/kernel/fork.c:109-115 | A new task cannot run yet, has a whole allotment that nobody pays for, no signal and no alarm |
| `Dispatch.Processor.Schedule` | linux-0.11/kernel/sched.c:110-148 | schedule ends after at most one recharge, which happens exactly when some task is runnable and all such are spent, and picks the best task of the result; signals before, counters after that as in the two loops |
| `Dispatch.Processor.ChargeTick` | linux-0.11/kernel/sched.c:338-341 | The running task pays one tick, not below 0; user code gives way when its time is up |
| `Dispatch.Processor.Nice` | linux-0.11/kernel/sched.c:384-389 | sys_nice never makes a priority 0 or less |
| `Dispatch.RechargeOnce` | linux-0.11/kernel/sched.c:130-147 | After one recharge every runnable task has at least its priority in time, so no second one is needed |
| `Dispatch.BestIsUnique` | linux-0.11/kernel/sched.c:131-140 | The choice is determined |
| `Dispatch.RunBelow` | linux-0.11/kernel/fork.c:113 | Over every run without nice, new tasks included, counters stay below twice the priority |
| `Dispatch.NiceBelowIff` | linux-0.11/kernel/sched.c:384-389 | nice keeps that bound if and only if it changes nothing or the counter is below twice the new priority |
| `Dispatch.NiceBreaksBound` | linux-0.11/kernel/sched.c:384-389 | An instance: priority and counter 15, increment 10, leaves a counter of three times the priority |
| `Dispatch.DispatchedBeforeSecondRecharge` | linux-0.11/kernel/sched.c:130-147 | A task that stays runnable is dispatched before a second recharge, and before the first if it has time left |
| `Dispatch.TimeIsSpent` | linux-0.11/kernel/sched.c:338-341 | Between recharges the sum of all counters pays, one for one, for the ticks charged; otherwise it changes only by the counters of tasks that are forked or released |
| `Dispatch.WaitIsBounded` | linux-0.11/kernel/sched.c:130-147 | A runnable task with time left waits through no more charged ticks than the other counters hold, those of new tasks included |
| `Pipe.PipeIsFifo` | linux-0.11/fs/pipe.c:13-69 | Under every interleaving of one reader and one writer the bytes read are a prefix of the bytes written, PIPE_SIZE is the difference in length and at most 4095, the two are never both asleep, and nobody sleeps on a pipe with a closed end |
| `Pipe.StuckOnlyWhenRightlyAsleep` | linux-0.11/fs/pipe.c:13-69 | If no call in progress can take a step, there is none, or the reader alone is in a call, asleep on an empty pipe, or the writer alone, asleep on a full one |
| `Pipe.EmptyPipe` | linux-0.11/fs/pipe.c:18-23 | A reader of an empty pipe wakes the writer; it then sleeps if and only if the other end is open, and otherwise returns |
| `Pipe.FullPipe` | linux-0.11/fs/pipe.c:46-53 | A writer to a full pipe wakes the reader; it then sleeps if and only if the other end is open, and otherwise returns |
| `Pipe.ReadReturns` | linux-0.11/fs/pipe.c:13-39 | Over every interleaving a call of `read_pipe` returns with all the bytes asked for, or with the pipe empty and the other end closed |
| `Pipe.WriteReturns` | linux-0.11/fs/pipe.c:41-69 | Over every interleaving a call of `write_pipe` returns with all its bytes written, or with the other end closed |
| `Pipe.OwnRunsEnd` | linux-0.11/fs/pipe.c:13-69 | Without new calls only a bounded number of steps is left: each call in progress returns or sleeps rightly |
| `Pipe.ReadIsFront` | linux-0.11/fs/pipe.c:24-35 | A chunk read is the front of the contents |
| `Pipe.WriteIsBack` | linux-0.11/fs/pipe.c:54-65 | A chunk written is appended to the contents and disturbs no byte already there |
| `Pipe.RunKeeps` | linux-0.11/fs/pipe.c:13-69 | Every run keeps the invariant |
| `Pipe.Buffer.PipeSize` | linux-0.11/include/linux/fs.h:58-62 | PIPE_SIZE is the number of bytes in the ring |
| `Pipe.Buffer.CopyOut` | linux-0.11/fs/pipe.c:24-35 | One turn of the loop of read_pipe |
| `Pipe.Buffer.CopyIn` | linux-0.11/fs/pipe.c:54-65 | One turn of the loop of write_pipe |
| `Pipe.Buffer.Drain` | linux-0.11/fs/pipe.c:17-36 | read_pipe until it is satisfied or must sleep takes the oldest bytes, as many as there are |
| `Pipe.Buffer.Fill` | linux-0.11/fs/pipe.c:45-66 | write_pipe until it is done or must sleep appends as many bytes as fit |
| `ExecCode.BuildImage` | linux-0.11/fs/exec.c:311-334 | For any argument and environment strings that fit, the new program finds at its aligned stack pointer argc, a null-terminated argv table and a null-terminated envp table whose entries address NUL-terminated copies of the strings; it fails exactly when the pages the strings touch cannot all be had |
| `ExecImage.LaidIsUnique` | linux-0.11/fs/exec.c:46-70 | From such memory exactly one list of arguments and one environment can be read back |
| `ExecImage.LongRoundTrip` | linux-0.11/fs/exec.c:56-58 | A word stored as four bytes reads back |
| `ExecImage.TableOverIsTable` | linux-0.11/fs/exec.c:59-68 | A table of the starts of strings that lie one after the other is a table of those strings |
| `ExecImage.WrittenBelow` | linux-0.11/fs/exec.c:311-312 | Copying the arguments below the environment leaves the environment as it was |
| `ExecCode.ArgPages.CopyStrings` | linux-0.11/fs/exec.c:104-152 | The backward copy with its cached page and offset lays out the strings in order below p, allocates only the pages they touch, cleared, and changes nothing else; 0 exactly when such a page cannot be had |
| `ExecCode.ArgPages.PutByte` | linux-0.11/fs/exec.c:132-147 | One turn of the inner loop: the cached offset and page always address the next lower byte |
| `ExecCode.CopyBoth` | linux-0.11/fs/exec.c:311-312 | Both calls: the arguments followed by the environment at the top of the image |
| `ExecCode.PlacePages` | linux-0.11/fs/exec.c:170-175 | Every allocated page becomes the page at its place under the end of the data segment, and no other byte of it changes |
| `ExecCode.CreateTables` | linux-0.11/fs/exec.c:46-70 | The parser, given flat strings, builds the tables below them and touches no byte outside the tables |
| `ExecCode.FillTable` | linux-0.11/fs/exec.c:59-63 | One parsing loop: the k-th word is the start of the k-th string, then a null word |
| `ExecCode.SkipString` | linux-0.11/fs/exec.c:61 | The inner loop stops just after the NUL |

## Left out

- The kernel identity map, the first directory entries and pages below 1 MB: present in the paging state, but not counted, as in the source.
- The contents served by demand loading, and the choice of a task to share with in `share_page`: parameters of the fault and share steps.
- Accessed and dirty bits set by the hardware: the dirty bit `try_to_share` tests is an arbitrary part of an entry, so what is shared is the page as it is, not the executable file.
- I/O errors, `breada`, `bread_page`, disk change and whole-block writes by `block_write`.
- Request slots shared between devices: one device at a time has the request array.
- `interruptible_sleep_on`: its queue discipline is a different one.
- Fairness of dispatch for woken sleepers: the wait-chain results count resumptions, the dispatch results bound how long a runnable task waits.
- Interrupts in the middle of the searches of `malloc` and `free_s`: a call is one step, except that between the search and the unlinking of `free_s` anything may have happened to `prev`.
- SleepQueue.RunKeeps: takes the stores of `sleep_on` before `schedule()` as one event; `SleepQueue.SplitSleepIff` says exactly when wake-ups between any two of the three do harm.
- SleepQueue.NoLostWakeUp: takes them as one event too.
- FsRuns.RunIsFlat: calls do not interleave; `FsRaces` says what happens when calls of others run while a writer of a missing block sleeps.
- BufferTable.Buffers.constructor: takes two buffers or more; a ring of one buffer would stay a ring when it is unlinked.
- BufferProgress.OwnRunEnds: the other processes stand still, since they can take the buffer a call waits for again and again; what they can and cannot do to it is `CallKept` and `SomebodyGoesOn`.
- BufferIndex.FreshAgrees: two buffers or more, likewise.
- BufferCache.SyncStep: `sync_inodes` before `sys_sync` and between the two passes of `sync_dev` is not a step of this process but of another.
- FsCode.FileSystem.ReleaseZone: the bitmap side of `free_block`; what it does to the buffer and its count is in `BufferCache`.
- BucketCode.Allocator.Malloc: does not say what state a panic leaves, because `panic` never returns.
- BucketCode.Allocator.FreeS: takes pointers to live objects, which is what callers may pass; the code does not check it.
- ExecCode.ArgPages.CopyStrings: takes strings that fit below p, because the code would go on below the image, outside its pages.
- ExecCode.CopyBoth: takes strings that fit, for the same reason.
- ExecCode.BuildImage: the pages below the image that the tables touch are taken as there; the fault that brings each of them in, and may find no memory, is the fault step of the paging model.
- `#!` interpretation in `do_execve`, the header checks and the register setup.
- Faults in the middle of a copy to or from user space in pipe and file code: one chunk is one step.
- SIGPIPE and the return values of `read_pipe` and `write_pipe`; `sys_pipe`.
- Several readers or writers on one pipe.
- Floppy motor timers, the beeper and time accounting in `do_timer`.
- Path walking, permissions, mounting, terminals, and all device handshakes.
