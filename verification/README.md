# OSv core, verified in Dafny

This project models the hard core of the OSv unikernel (`osv/unikernel/core`) and proves what it
promises: the lock-free mutex, read-copy-update, the page range allocator, the list of virtual memory
areas, the page table walker, thread placement and runtimes of the scheduler, timer tasks, the GNU hash
lookup of the ELF loader, and the allocation tracker.

`dafny verify dfyconfig.toml` checks everything. One file per component:

| file | module | what it is about |
|---|---|---|
| `Wrappers.dfy` | `Wrappers`, `Lists`, `Multiples` | what the others share: optional values, lists without repetitions, multiples |
| `LfMutex.dfy` | `LockFreeMutex` | recursive mutex with responsibility hand-off, one step per atomic operation |
| `Rcu.dfy` | `ReadCopyUpdate` | generations, double-buffered callbacks, `rcu_flush` |
| `PageRanges.dfy` | `PageRanges` | free lists by order, end-tag bitmap, back pointers |
| `VmaList.dfy` | `VmaList` | sorted list of areas: split, evacuate, protect, find a hole |
| `PageTable.dfy` | `PageTable` | four-level table, splitting, linear mapping, lookup |
| `Placement.dfy` | `ThreadPlacement` | thread status, run queues, incoming wakeups, load balancing |
| `TimerTask.dfy` | `TimerTasks` | timer registrations shared with per-CPU workers |
| `Runtime.dfy` | `ThreadRuntime` | renormalised runtimes over the reals |
| `CpuTime.dfy` | `CpuTimeEstimator` | the packed CPU-time estimate |
| `GnuHash.dfy` | `GnuHash` | symbol lookup against a linear scan |
| `AllocTracker.dfy` | `AllocTracker` | records linked by index |

How the models are built:

- The concurrent components (mutex, RCU, thread placement, timer tasks) are step machines: a state, a
  relation or function for one step of one thread or CPU, and runs as sequences of states. Steps are
  sequentially consistent; counters are unbounded. A failed `assert` of the source is a state of its own
  (`Panic`, `panic`), so "no assertion fails" is a theorem about all runs.
- The sequential components that change data in place (page ranges, area list, page table, tracker,
  runtimes of a CPU) are classes whose methods are proved against functions on values; those functions
  have properties of their own.
- Memory of a free page range is modelled where the allocator relies on it: the size in the first page
  and the pointer in the last word of the last page. Pages that are in use may be overwritten by their
  owners at any time (`OwnerWrites`).
- The clock, the length of time slices and what a callback does are parameters or nondeterministic.

Where the code and a comment or name differ, the model follows the code:

- `cputime_estimator_get` says that less than 2^41 ns must have passed; the code is exact up to 2^42 ns
  (`RecoverExact`).
- The bloom test of `lookup_symbol_gnu` shifts without masking, so it looks at all bits from the symbol's
  bit on; it rejects less than a bloom filter could but never hides a symbol (`BloomPasses`).
- `find_hole` adds `start + size` in 64 bits. An address it returns is a hole exactly when that sum does not
  wrap; when it wraps, it returns `start` exactly if that is not above the limit and not inside a range
  (`FindHole`), as for a request of 2^64 - 4096 bytes at address 4096 (`WrappedRequest`).
- `linear_map` asserts congruence only modulo the slop; with one page of slop a 2 MB entry is written
  wherever the range covers a 2 MB page, so the mapping is linear exactly when the addresses are congruent
  modulo 2 MB or no such page is covered; otherwise the table is left with an entry the processor faults on or
  misreads (`LinearMap`).
- `split` rounds both halves to pages, so they overlap when the edge is not on a page border
  (`SplitDisjoint`), and `evacuate` comes to a sentinel, and erases it, exactly when the range starts at 0 or
  ends above the limit (`SentinelsErased`).
- `update_after_sleep` sets the runtime of a thread that missed two or more renormalisations to zero; it
  agrees with the queue exactly when at most one was missed or the runtime is zero (`WakesAsQueued`).

## Model

| member | source | states |
|---|---|---|
| LockFreeMutex.StepKeeps | osv/unikernel/core/lfmutex.cc:24-266 | every atomic step of lock, try_lock, unlock, send_lock and receive_lock, by any thread, keeps the invariant: one token for the lock, count equals pending requests plus queue plus counted token, every wait record in one place |
| LockFreeMutex.RunKeeps | osv/unikernel/core/lfmutex.cc:24-266 | the invariant holds in every state of every run of any number of threads |
| LockFreeMutex.LockInOnePlace | osv/unikernel/core/lfmutex.cc:24-93 | the lock is free exactly if count is 0, parked if handoff is set, and otherwise with exactly one thread |
| LockFreeMutex.MutualExclusion | osv/unikernel/core/lfmutex.cc:24-93 | two threads never have the lock together, nor outstanding acquisitions by their own count; the recorded owner has the lock and count is at least 1 |
| LockFreeMutex.RecursionDepth | osv/unikernel/core/lfmutex.cc:178-234 | depth of the owner equals acquisitions minus releases by that thread, nobody else has one outstanding |
| LockFreeMutex.AssertionsHold | osv/unikernel/core/lfmutex.cc:57-91 | no assertion of the mutex fails and no null record is dereferenced in any run |
| LockFreeMutex.TryLockAnswers | osv/unikernel/core/lfmutex.cc:178-212 | try_lock gives up only for a thread without an acquisition, with the count not zero and no hand-off to be had; the owner acquires once more; at count 0 or with a hand-off taken it goes on to acquire |
| LockFreeMutex.CallsEnd | osv/unikernel/core/lfmutex.cc:24-266 | lock and receive_lock end with exactly one acquisition more, unlock with one less and, after the last, without the lock; send_lock and other threads' steps change nobody's acquisitions |
| LockFreeMutex.NobodyStuck | osv/unikernel/core/lfmutex.cc:24-266 | a thread inside a call can go on exactly unless it sleeps on a record not woken; which calls a thread outside can make |
| LockFreeMutex.WaiterAccounted | osv/unikernel/core/lfmutex.cc:24-140 | a sleeper on a record given to the mutex and not woken is in the queue, or some thread is about to push or to wake its record |
| LockFreeMutex.ServedInOrder | osv/unikernel/core/lfmutex.cc:24-266 | waiters join the queue at its end and are taken from its front, to be woken |
| LockFreeMutex.NoStrandedWaiter | osv/unikernel/core/lfmutex.cc:214-266 | with every thread idle, holding or parked, handoff is empty and a non-empty queue means somebody holds the lock or was woken with it; every sleeping locker and every condvar waiter given to send_lock is in the queue |
| LockFreeMutex.SingleConsumer | osv/unikernel/core/lfmutex.cc:59-82 | never two threads about to pop; who wins a hand-off finds a waiter; a locker that pops another's record has not been woken |
| LockFreeMutex.HandoffWindow | osv/unikernel/core/lfmutex.cc:126-133 | between the load of a hand-off and the compare-exchange that wins it the hand-off stays parked, nobody has the lock and the queue only grows |
| ReadCopyUpdate.FlipKeeps | osv/unikernel/core/rcu.cc:124-138 | switching buffers keeps all callbacks, sets aside exactly those of the current buffer in order, and is done unless there are none |
| ReadCopyUpdate.TakeKeeps | osv/unikernel/core/rcu.cc:168-173 | setting the count of the old buffer to zero loses no callback |
| ReadCopyUpdate.RunKeeps | osv/unikernel/core/rcu.cc:174-177 | running a callback moves exactly the next one from the ones set aside to the ones run |
| ReadCopyUpdate.AppendKeeps | osv/unikernel/core/rcu.cc:197-226 | rcu_defer appends exactly this callback to the current buffer, in a slot that was empty, and touches none that are set aside |
| ReadCopyUpdate.ProtocolCounters | osv/unikernel/core/rcu.cc:73-95 | requests only rise, a thread changes only its own generation and only upwards |
| ReadCopyUpdate.ProtocolReach | osv/unikernel/core/rcu.cc:97-108 | a CPU that was seen at a generation stays at or above it while the scan goes on |
| ReadCopyUpdate.ProtocolGrace | osv/unikernel/core/rcu.cc:139-167 | a reader section that is as old as the buffer switch is on a CPU that has not reached the generation |
| ReadCopyUpdate.GraceOver | osv/unikernel/core/rcu.cc:117-191 | when callbacks run, no section of the snapshot taken at the switch is active |
| ReadCopyUpdate.HistoryKeeps | osv/unikernel/core/rcu.cc:117-191 | the invariant holds in every state of every run, for any interleaving of CPUs, readers, defers and flushes |
| ReadCopyUpdate.GracePeriod | osv/unikernel/core/rcu.cc:117-191 | a callback that had not been set aside at some moment runs only after every reader section active at that moment, on any CPU, has ended |
| ReadCopyUpdate.ExactlyOnceInOrder | osv/unikernel/core/rcu.cc:124-177 | the callbacks given to a CPU are those run, then those set aside, then those in the current buffer, in order; a buffer holds 2000, and the next slot to be written is empty |
| ReadCopyUpdate.FlushRunOne | osv/unikernel/core/rcu.cc:246-260 | running a callback posts exactly the flush it belongs to |
| ReadCopyUpdate.FlushComplete | osv/unikernel/core/rcu.cc:246-260 | when rcu_flush has returned, every callback given to any CPU before the call has run |
| ReadCopyUpdate.WaitsOnlyForAsked | osv/unikernel/core/rcu.cc:139-167 | a thread waits for its generation only on CPUs that have an open request for it or a later one |
| ReadCopyUpdate.RequestsServed | osv/unikernel/core/rcu.cc:154-191 | a thread whose CPU has an open request takes it up instead of sleeping and reaches it; without one it runs its callbacks as soon as all CPUs are at its generation |
| ReadCopyUpdate.NobodyStuck | osv/unikernel/core/rcu.cc:117-191 | the thread of a CPU without active readers can move exactly unless it sleeps with no request open and no callback waiting |
| ReadCopyUpdate.ClientsGoOn | osv/unikernel/core/rcu.cc:194-260 | rcu_defer goes on exactly with less than 2000 callbacks in the current buffer, a flush returns exactly when all its callbacks have run |
| PageRanges.Log2 | osv/unikernel/include/osv/ilog2.hh:58-66 | 2^r <= n < 2^(r+1) |
| PageRanges.Log2Up | osv/unikernel/include/osv/ilog2.hh:48-56 | the least r with n <= 2^r |
| PageRanges.OrderExact | osv/unikernel/core/mempool.cc:618-648 | a range of 2^o pages or more and less than twice as many is on list o, one of 65536 pages or more in the tree |
| PageRanges.EnoughBounds | osv/unikernel/core/mempool.cc:724-763 | n pages are enough for contiguous memory; otherwise less than twice as many, n itself from 65536 on |
| PageRanges.LowestSet | osv/unikernel/core/mempool.cc:730-734 | the lowest set bit at or above a position, or none |
| PageRanges.Canonical | osv/unikernel/core/mempool.cc:808-824 | with no two free ranges adjacent, the free ranges are determined by which pages are free |
| PageRanges.CarveKeeps | osv/unikernel/core/mempool.cc:766-776 | allocation keeps ranges disjoint, covering and non-adjacent |
| PageRanges.CarveKinds | osv/unikernel/core/mempool.cc:766-776 | allocation takes exactly the pages handed out and changes no block in use |
| PageRanges.MergeKeeps | osv/unikernel/core/mempool.cc:808-824 | freeing with both neighbours joined keeps ranges disjoint, covering and non-adjacent |
| PageRanges.MergeKinds | osv/unikernel/core/mempool.cc:808-824 | freeing frees exactly the pages handed in and changes no other block in use |
| PageRanges.AllocFree | osv/unikernel/core/mempool.cc:723-824 | freeing what was allocated restores the ranges there were |
| PageRanges.GiveBackInPieces | osv/unikernel/core/mempool.cc:661-671 | a block allocated with fill and freed in pieces, in any order and size, leaves the ranges there were before |
| PageRanges.RunKeeps | osv/unikernel/core/mempool.cc:723-824 | after any sequence of allocations and frees, one segment per page, no adjacent free ranges, and free and allocated pages together are the initial ones |
| PageRanges.EndTags | osv/unikernel/core/mempool.cc:808-822 | the two bitmap reads and the back-pointer read in free tell the truth about the neighbouring ranges |
| PageRanges.HighestPlacement | osv/unikernel/core/mempool.cc:783-786 | every aligned placement in a range is at or below the one computed, which fits if any does |
| PageRanges.TooSmall | osv/unikernel/core/mempool.cc:726-755 | a range on a list below the requested order is too small, except perhaps on the list just below |
| PageRanges.PageRangeAllocator.Insert | osv/unikernel/core/mempool.cc:618-634 | adds exactly this range to its list, writes back pointer and end bits, keeps lists, huge order and not_empty exact |
| PageRanges.PageRangeAllocator.Remove | osv/unikernel/core/mempool.cc:635-654 | takes exactly this range off its list |
| PageRanges.PageRangeAllocator.SetBits | osv/unikernel/core/mempool.cc:661-671 | sets the two end bits, or with fill every bit, and no other |
| PageRanges.PageRangeAllocator.OwnerWrites | osv/unikernel/core/mempool.cc:617-671 | whatever the owner writes into a page in use, the allocator stays consistent |
| PageRanges.PageRangeAllocator.Listed | osv/unikernel/core/mempool.cc:618-654 | a page is on list o exactly if it starts a free range of order o |
| PageRanges.PageRangeAllocator.FindRange | osv/unikernel/core/mempool.cc:726-763 | the order-indexed search finds a range exactly if a linear scan would, on the smallest list that surely has enough, the largest of the tree |
| PageRanges.PageRangeAllocator.Largest | osv/unikernel/core/mempool.cc:755-758 | the last range of the tree is the largest of all free ranges |
| PageRanges.PageRangeAllocator.Alloc | osv/unikernel/core/mempool.cc:723-776 | fails exactly if no free range is large enough, for contiguous memory exactly if all have fewer than n pages; otherwise carves exactly n pages out of one range of the best order |
| PageRanges.PageRangeAllocator.TakeFront | osv/unikernel/core/mempool.cc:764-776 | allocates the first pages of a range and lists the rest |
| PageRanges.PageRangeAllocator.FindAligned | osv/unikernel/core/mempool.cc:778-786 | the visit of tree and lists finds a range exactly if one has room for an aligned block, of the greatest order that has one |
| PageRanges.PageRangeAllocator.AllocAligned | osv/unikernel/core/mempool.cc:778-806 | fails exactly if no aligned placement exists in any free range, otherwise allocates exactly n pages at the highest aligned place of a range |
| PageRanges.PageRangeAllocator.TakeInside | osv/unikernel/core/mempool.cc:787-802 | cuts head and tail off a range, lists both, and clears the end bits or all bits of the block |
| PageRanges.PageRangeAllocator.Free | osv/unikernel/core/mempool.cc:808-824 | joins exactly the free neighbours, keeping tags, lists and bitmap consistent |
| PageRanges.PageRangeAllocator.JoinLeft | osv/unikernel/core/mempool.cc:810-816 | joins the preceding range exactly if it is free |
| PageRanges.PageRangeAllocator.JoinRight | osv/unikernel/core/mempool.cc:817-822 | joins the following range exactly if it is free |
| VmaList.SplitMeaning | osv/unikernel/core/mmu.cc:1857-1869 | a split on a page border changes no address's permission, flags, file or file offset |
| VmaList.SplitSorted | osv/unikernel/core/mmu.cc:1579-1590 | a split on a page border keeps the list sorted and disjoint |
| VmaList.SplitDisjoint | osv/unikernel/core/mmu.cc:1465-1481 | the halves are disjoint if and only if the edge is a multiple of 4096 |
| VmaList.RefusalExact | osv/unikernel/core/mmu.cc:1903-1920 | the permission is refused exactly if the file was not opened for it (EACCES), or lies on a file system that forbids execution (EPERM) |
| VmaList.OnlyGranted | osv/unikernel/core/mmu.cc:1903-1920 | in every list in order no address has a permission that its file does not grant |
| VmaList.IntersectingMeets | osv/unikernel/core/mmu.cc:957-981 | the slice returned is exactly the areas that meet the range |
| VmaList.SentinelsErased | osv/unikernel/core/mmu.cc:1058-1078 | the walk reaches a sentinel exactly if the range starts at 0 or ends above the limit, erases it there, and the list is then out of order |
| VmaList.AddressSpace.Split | osv/unikernel/core/mmu.cc:1579-1590 | replaces the area by its two halves, or does nothing |
| VmaList.AddressSpace.SplitEnds | osv/unikernel/core/mmu.cc:1062-1064 | after both splits the area lies inside the range or outside it, all meanings are as before, and the end of the walk is still the same area |
| VmaList.AddressSpace.EvacuateArea | osv/unikernel/core/mmu.cc:1061-1078 | one step unmaps one area's part of the range and changes nothing else, and the walk goes on at a higher address |
| VmaList.AddressSpace.Evacuate | osv/unikernel/core/mmu.cc:1058-1081 | unmaps exactly the addresses of the range, everything else keeps its meaning, list stays sorted, loop ends |
| VmaList.AddressSpace.ProtectArea | osv/unikernel/core/mmu.cc:1004-1009 | one step gives the permission to one area's part of the range and changes nothing else, and the walk goes on at a higher address |
| VmaList.AddressSpace.Protect | osv/unikernel/core/mmu.cc:992-1012 | succeeds exactly if all that is mapped in the range allows the permission, then exactly those addresses have it; on an error the part below the first refusing address has been changed |
| VmaList.AddressSpace.IsMapped | osv/unikernel/core/mmu.cc:1371-1385 | true exactly if the range is not empty and every address of it is mapped, for every range that is empty or begins at or below the limit |
| VmaList.AddressSpace.Map | osv/unikernel/core/mmu.cc:1202-1222 | allocation at a fixed address maps exactly the range with the new area, consecutive addresses to consecutive file offsets, and leaves all else |
| VmaList.FindHole | osv/unikernel/core/mmu.cc:1020-1056 | no answer only if there is no hole below the limit; a hole at start is the answer; the answer is at or above start and a hole unless start + size wraps, and then it is start exactly if that is not above the limit and not inside a range; otherwise the lowest hole for requests under 2 MB, for larger ones the lowest at a 2 MB border, or one in the last gap that has any |
| VmaList.NothingWraps | osv/unikernel/core/mmu.cc:1038-1045 | neither unsigned subtraction wraps, the one after huge-page rounding included |
| VmaList.WrappedRequest | osv/unikernel/core/mmu.cc:1034-1036 | a concrete request whose sum wraps is answered with an address that is no hole |
| PageTable.SplitKeeps | osv/unikernel/core/mmu.cc:272-278 | splitting a 2 MB entry keeps every translation if and only if its address is 2 MB aligned |
| PageTable.OpenedKeeps | osv/unikernel/core/mmu.cc:479-500 | the new, split or existing table the walker descends into translates as the entry did |
| PageTable.ClampPages | osv/unikernel/core/mmu.cc:294-301 | with one page of slop whole pages are cut to the entry and never widened |
| PageTable.ClampSlop | osv/unikernel/core/mmu.cc:294-301 | each end is widened to the next multiple of the slop unless that passes the limit |
| PageTable.IndexSelects | osv/unikernel/include/osv/mmu.hh:39-42 | inside an entry the index bits of an address select the entry of the level below that covers it |
| PageTable.CoversExactly | osv/unikernel/include/osv/mmu-defs.hh:104-107 | an entry covers exactly the pages from its first page up to the first page of the next entry |
| PageTable.MapEntry | osv/unikernel/core/mmu.cc:507-531 | maps exactly the part of the range in one entry, which stays well formed exactly if addresses are congruent or it holds no 2 MB page of the range |
| PageTable.MapLevel | osv/unikernel/core/mmu.cc:479-533 | the walk maps exactly the range: every page of it as computed, no other translation changed, well formed exactly under that condition |
| PageTable.LinearExact | osv/unikernel/core/mmu.cc:535-550 | every page goes to its own physical page if and only if the addresses are congruent or no 2 MB page is covered |
| PageTable.WalkTranslates | osv/unikernel/core/mmu.cc:789-814 | the software lookup finds what the processor finds, for every address and table |
| PageTable.Bit12Ignored | osv/unikernel/arch/x64/arch-mmu.hh:21-24 | bit 12 of a 2 MB entry is not an address bit, for the processor and for the walk |
| PageTable.AddressSpace.LinearMap | osv/unikernel/core/mmu.cc:2007-2014 | virt + k becomes phys + k for all k below size exactly if addresses are congruent modulo 2 MB or no 2 MB page is covered, exactly then the table stays well formed; what is mapped is writable and executable, and no translation of another address changes, permission included |
| PageTable.AddressSpace.VirtToPhys | osv/unikernel/core/mmu.cc:902-909 | returns the processor's translation in bytes |
| ThreadPlacement.LowerFits | osv/unikernel/core/sched.cc:564-572 | the place of enqueue_first_equal keeps the queue in order |
| ThreadPlacement.UpperFits | osv/unikernel/core/sched.cc:558-562 | the place of enqueue keeps the queue in order |
| ThreadPlacement.Overtaken | osv/unikernel/core/sched.cc:284-345 | a running thread that must go comes after the first of the queue once it has given back its hysteresis |
| ThreadPlacement.NextThread | osv/unikernel/core/sched.cc:352-375 | the run queue is not empty, its first thread is queued and is not the current one |
| ThreadPlacement.PopFinds | osv/unikernel/core/sched.cc:528-551 | a thread on an incoming list belongs to this CPU, is waking and is in no queue |
| ThreadPlacement.SwitchShape | osv/unikernel/core/sched.cc:334-373 | a switch takes the first thread off the queue and puts a thread that is still runnable back in order, and changes nothing else |
| ThreadPlacement.BalanceShape | osv/unikernel/core/sched.cc:814-838 | load balancing moves one queued, unpinned thread, the last of the queue, never an idle one, and keeps the rest of the queue in order |
| ThreadPlacement.StepKeeps | osv/unikernel/core/sched.cc:258-381 | every step of wake, wait, reschedule, incoming wakeups and load balancing keeps the placement invariant |
| ThreadPlacement.RunKeeps | osv/unikernel/core/sched.cc:258-381 | the invariant holds and no assertion has failed in every state of every run |
| ThreadPlacement.OnePlace | osv/unikernel/core/sched.cc:518-572 | a thread is in at most one position of one run queue or incoming list |
| ThreadPlacement.Placed | osv/unikernel/core/sched.cc:792-842 | a thread is queued exactly if it is in its own CPU's run queue; an idle thread runs or is queued on its CPU; the current thread is not queued |
| ThreadPlacement.PicksFirst | osv/unikernel/include/osv/sched.hh:968-978 | a switch goes to a queued thread that no other queued thread precedes, by priority and then by runtime, and a yield never to the idle thread |
| ThreadPlacement.StaysExactly | osv/unikernel/core/sched.cc:284-331 | the thread that ran goes on exactly if it is runnable and nobody is queued, or, preempted, nobody queued has greater priority nor, between threads of priority 0, as little runtime, or, yielding, everybody queued has less priority |
| ThreadPlacement.RequeuedAmongEquals | osv/unikernel/core/sched.cc:332-365 | a runnable thread that loses the CPU is queued before its equals if preempted and after them if it yielded, one not runnable is not queued |
| ThreadPlacement.WokenRuns | osv/unikernel/core/sched.cc:518-562 | a thread found on an incoming list belongs to the CPU and runs on if it is current, else joins the queue after its equals with its runtime updated |
| ThreadPlacement.WakeGoesOn | osv/unikernel/core/sched.cc:1306-1337 | a waiting thread can be woken from any CPU, the waker can go on to the list and the mask, and a thread put on a list is on it |
| ThreadPlacement.WaitCodeGoesOn | osv/unikernel/core/sched.cc:1425-1446 | a thread can begin to wait and stop waiting, runs if nobody has woken it and else stays until its wakeup is taken off the list; when a yield is possible |
| ThreadPlacement.CpuGoesOn | osv/unikernel/core/sched.cc:258-381 | a CPU can always reschedule, takes all marked lists, goes through them to the end, and decides if and only if it is to reschedule |
| ThreadPlacement.NoLostWakeup | osv/unikernel/core/sched.cc:1306-1337 | a non-empty incoming list has its mask bit set, about to be set, or is being emptied |
| TimerTasks.GiveBackKeeps | osv/unikernel/core/async.cc:345-353 | giving a registration back keeps the invariant whoever does it |
| TimerTasks.CancelKeeps | osv/unikernel/core/async.cc:355-374 | cancel keeps the invariant whether its compare-exchange wins or loses |
| TimerTasks.StepKeeps | osv/unikernel/core/async.cc:105-392 | every step of timers, workers and the destructor keeps the invariant |
| TimerTasks.RunKeeps | osv/unikernel/core/async.cc:105-392 | the invariant holds in every run, no assertion fails, no worker touches a destroyed timer |
| TimerTasks.EachOnce | osv/unikernel/core/async.cc:237-392 | each reschedule causes at most one callback and its registration is given back exactly once: when no task is in use for it, after it fired or was called off, never both |
| TimerTasks.SupersededNeverRuns | osv/unikernel/core/async.cc:292-374 | a registration active at a cancel, reschedule or destruction never runs its callback |
| TimerTasks.NothingPending | osv/unikernel/include/osv/async.hh:118-127 | when cancel finds nothing pending, no registration of the timer is still to be fired |
| TimerTasks.DestroyedIsQuiet | osv/unikernel/core/async.cc:292-312 | after the destructor no ACTIVE or FIRING task refers to the timer and no worker will touch it |
| TimerTasks.PendingIsKept | osv/unikernel/core/async.cc:171-254 | in every run the pending registration is in its worker's timer set, or in the hands of its worker, which is about to fire it |
| TimerTasks.Rescheduled | osv/unikernel/core/async.cc:319-343 | reschedule leaves one registration more, pending, not fired, and in the timer set of the CPU's worker |
| TimerTasks.WorkerGoesOn | osv/unikernel/core/async.cc:171-254 | a worker takes a task out of its set and fires it unless it was released, the callback begins exactly if the registration is the pending one, and only the mutex can hold the worker up |
| TimerTasks.MutexHeld | osv/unikernel/core/async.cc:319-392 | while reschedule holds the mutex nobody else changes the timer |
| TimerTasks.ReleasedIsKept | osv/unikernel/core/async.cc:126-147 | a released task is on its way to its worker's queue or in it, exactly once |
| TimerTasks.CallsGoOn | osv/unikernel/core/async.cc:292-374 | when cancel, reschedule and the destructor can proceed, and that after the first two nothing is pending |
| TimerTasks.DestructorGoesOn | osv/unikernel/core/async.cc:292-312 | the destructor can give back each registration not being fired, the worker of each other one has it in hand, and with none left it returns |
| TimerTasks.PendingAfter | osv/unikernel/include/osv/async.hh:118-133 | only the timer's own calls and the start of its callback change what is pending; cancel, reschedule and the destructor leave nothing pending before the new registration |
| TimerTasks.SerialKeeps | osv/unikernel/core/async.cc:413-474 | every call of reschedule, cancel and try_fire, and every start of a callback by a worker, keeps the count equal to callbacks pending plus begun, a pending timer active, and an active one pending or with a callback that has yet to call try_fire |
| TimerTasks.SerialCount | osv/unikernel/core/async.cc:408-433 | in every run the count is zero exactly if nothing is pending and every callback that began has called try_fire |
| TimerTasks.OnePassPerReschedule | osv/unikernel/include/osv/async.hh:170-179 | over any part of any run no more try_fire calls succeed than there are reschedules, plus one if active at the start, and none between a cancel and the next reschedule |
| TimerTasks.TryFirePasses | osv/unikernel/core/async.cc:443-474 | try_fire passes exactly if the timer is active and not pending; an active timer is pending or some callback has yet to call try_fire, so the last one passes |
| ThreadRuntime.RatioKept | osv/unikernel/core/sched.cc:1957-2014 | over any sequence of ticks and renormalisations a waiting thread's ratio of runtime to c is divided by exactly the product of the growth factors |
| ThreadRuntime.OrderKept | osv/unikernel/core/sched.cc:1995-2014 | waiting threads keep their order |
| ThreadRuntime.RunnerOrder | osv/unikernel/core/sched.cc:1995-2014 | renormalisation does not change the order of the thread that ran and a waiting one |
| ThreadRuntime.RenormalizesAtLimit | osv/unikernel/core/sched.cc:1995-2014 | c is divided by 2^126 exactly when it reaches 2^63, and all who counted with the CPU still do |
| ThreadRuntime.WakesAsQueued | osv/unikernel/core/sched.cc:1935-1955 | a sleeper wakes with the value it would have had in the queue if and only if it missed at most one renormalisation or its runtime is zero or infinite |
| ThreadRuntime.WakesNoLater | osv/unikernel/core/sched.cc:1935-1955 | a sleeper never wakes behind the place it would have in the queue, and at runtime zero after two missed renormalisations or more |
| ThreadRuntime.MovesFairly | osv/unikernel/core/sched.cc:1927-1955 | export and update on another CPU keep the ratio of runtime to c |
| ThreadRuntime.Cpu.RanFor | osv/unikernel/core/sched.cc:1957-2014 | the clock, the running thread and every queued thread change as specified, renormalised together; nothing changes when c would overflow |
| ThreadRuntime.Cpu.Shift | osv/unikernel/core/sched.cc:2020-2058 | hysteresis and switch penalty change the clock and the thread as specified and leave the queue alone |
| ThreadRuntime.HysteresisReturned | osv/unikernel/core/sched.cc:2020-2048 | borrowed and returned hysteresis cancel out: in units of c the runtime is as if the thread had only run, renormalised in between or not |
| ThreadRuntime.StopRaises | osv/unikernel/core/sched.cc:2039-2048 | giving back the hysteresis makes the runtime strictly greater |
| CpuTimeEstimator.RecoverExact | osv/unikernel/core/sched.cc:189-223 | a saved time is recovered but for its 10 low bits if and only if less than 2^42 ns separates it from the reference, roll-over included |
| CpuTimeEstimator.PackUnpack | osv/unikernel/core/sched.cc:181-223 | both packed times are recovered if and only if each reference is near |
| GnuHash.DlNewHash | osv/unikernel/core/elf.cc:905-913 | the 64-bit wrapping loop computes the unbounded fold cut to 32 bits |
| GnuHash.HashStep | osv/unikernel/core/elf.cc:905-913 | the hash starts at 5381 and each byte multiplies it by 33 and is added, in 32 bits |
| GnuHash.BloomExact | osv/unikernel/core/elf.cc:926-932 | the bloom test passes exactly if neither bit lies above the highest one set in the 64-bit word, so whenever both are set |
| GnuHash.BloomPasses | osv/unikernel/core/elf.cc:926-932 | the bloom test never hides a hashed symbol |
| GnuHash.WalkChain | osv/unikernel/core/elf.cc:935-951 | the chain walk ends and returns what a scan of all hashed symbols returns |
| GnuHash.LookupGnu | osv/unikernel/core/elf.cc:915-952 | for every well-formed table and name, the same symbol as the scan |
| GnuHash.ScanLowest | osv/unikernel/core/elf.cc:940-951 | the scan returns the lowest match, and none only if there is none |
| AllocTracker.DropsNewest | osv/unikernel/core/alloctracker.cc:106-115 | what forget drops is the newest record of the address, all others stay |
| AllocTracker.RememberForget | osv/unikernel/core/alloctracker.cc:18-117 | forgetting what was just remembered restores what was tracked |
| AllocTracker.RememberKeeps | osv/unikernel/core/alloctracker.cc:48-58 | the two lists still partition all indices and stamps fall along the live list |
| AllocTracker.ForgetKeeps | osv/unikernel/core/alloctracker.cc:106-115 | unlinking in the middle keeps both lists and the partition |
| AllocTracker.Tracker.Grow | osv/unikernel/core/alloctracker.cc:27-46 | doubles the array from 1024, all new records unused, nothing tracked is lost |
| AllocTracker.Tracker.Remember | osv/unikernel/core/alloctracker.cc:26-58 | the new record comes first, with the next stamp; the array grows only when every record is in use |
| AllocTracker.Tracker.Forget | osv/unikernel/core/alloctracker.cc:95-117 | ends, and drops exactly the newest record of the address, if any |
| AllocTracker.Tracker.Unuse | osv/unikernel/core/alloctracker.cc:107-114 | unlinks the record through the pointer to it and puts it first on the free list |

## Left out

- `send_lock_unless_already_waiting`: its already-waiting path returns without taking back its increment of `count`, and a thread then has two wait records.
- Weak memory orderings: all atomic steps are sequentially consistent.
- Wrap-around of counters: the hand-off sequence, RCU generations, renormalisation counts, `_n_scheduled` and allocation stamps are unbounded.
- Liveness: no fairness is assumed, so it is proved that somebody can always go on and that nobody waits in vain, but not when a waiter, callback or timer is served.
- Condition variable timeouts and `wake_lock`.
- RCU: hot-plugged CPUs, and who wakes the quiescent state threads; a sleeping thread may look again at any time.
- Page ranges: `initial_add` and the bitmap that allocates itself, the page pools, the reclaimer and the small-object pools; sizes are counted in pages, as all callers round them.
- Area list: a range that is not empty and begins above the limit, for which the search looks at the end of the set; the page table work of `operate_range`, the separate set of linear areas (it appears as the ranges of `find_hole`), balloon areas, `sync` and `advise`; a split of a file area whose `stat` fails.
- Page table: permission changes, copy-on-write, population and unpopulation, clean-up of empty tables, slop above one page, and sign extension of the 48-bit address, which does not change which entry is used.
- Scheduler: thread creation and termination, `thread::pin` and `unpin`, time slices, timers and the preemption timer; to which CPU `load_balance` moves a thread, and when; growth factors of time are parameters, so the approximation of the exponential is not modelled.
- ThreadRuntime.Cpu.RanFor: the threads of a run queue are values in a sequence, not objects that others refer to; floating-point rounding is not modelled, and that the new c would be infinite is a parameter.
- Timer tasks: the order in which timers expire, and the one-shot queue of `run_later`; `cancel_sync` waits once without a loop and is not modelled.
- ELF: relocation, segment loading, the System V hash table and version matching other than the old-version bit.
- AllocTracker: backtraces and the re-entrancy guard.
- Drivers, system call dispatch, boot, and the benchmark programs around the unikernel: input and output plumbing.
