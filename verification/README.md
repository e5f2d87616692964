# Verified models of the p7 runtime

Dafny models of the stateful core of the p7/p7r coroutine runtime and of the containers under
it, with proofs of what they keep:

- `RbShape`, `RbHeap`, `RbTree` — the intrusive red-black tree (`util/scraft_rbt.c`): linked
  nodes with parent pointers and a mutable sentinel, insertion and deletion with their fixups.
- `LruCache` — the LRU cache over that tree and a queue (`util/scraft_lru_cache.c`).
- `TimerDrain` — the timer queue of a p7 carrier and its expiry loop (`p7/p7impl.c`).
- `CpBuffer` — the lock-free double buffer with its drain and wakeup protocol
  (`p7r/p7r_cpbuffer.h`, `p7r/p7r_uthread.c`).
- `RwSpin` — the ticket reader/writer lock (`p7/rwspin.c`).
- `Scheduler` — the user-thread scheduler of one carrier (`p7r/p7r_uthread.c`).
- `StackAllocator` — the stack allocator with dynamic slave zones
  (`p7r/p7r_stack_allocator.c`, `p7r/p7r_stack_hint.c`).
- `HashTable` — the move-to-front hash table (`util/scraft_hashtable.c`).
- `UtilList` — the circular list (`include/util_list.h`), refined to sequences.
- `Lists`, `Words`, `Comparators` — what the others share.

## How the models are built

**Tree.** A node is an object with `left`, `right`, `parent` and `color`; a key reference is the
number the comparator is given, and it never changes while the node exists. `Rbt.RbTree` carries
the ghost tree its nodes hold. Inside a loop the state is a focus: a subtree and the path above
it (`HoldsZip`). What a heap step does is stated on a snapshot of the nodes' fields, and that it
keeps order, colours and black heights is proved once on trees without a heap (`RbShape`).
Nothing is assumed of the parent pointer of the root, and that of the sentinel means something
only during the deletion fixup. The ghost field `turns` counts rotations; only
`RotateLeft` and `RotateRight` raise it.

**Concurrent protocols.** `CpBuffer` and `RwSpin` are transition systems under sequential
consistency with one step per access to shared memory, every interleaving and any number of boxes or threads.
`RwSpin` reads its step functions twice, with 32-bit counters and with unbounded ones;
`Simulates` shows that with fewer than 2^32 threads the first does exactly what the second does.
`completion++` is a read step and a write step. In `CpBuffer` appending to a list and removing
its head are one step each, which `ListsApart` justifies: the two sides never work on one list.

**Sequential code.** `Cache`, `Carrier`, `Sched`, `Allocator`, `Provider` and `Table` are classes
with the fields of the C structures; an intrusive list is a sequence that their methods reassign,
which `UtilList` justifies. Each method is proved against a function of the old state, and the
lemmas are about those functions. A method of `Sched` also returns, as a ghost, the uthread
that hiring would have used, so that each is literally a step of the runs in `SchedulerSafety`.
An embedding structure and its embedded node are identified, or linked by a map (`owners`).
What the code needs of its callers is a precondition: a three-way comparator, a positive hash
capacity and a hash that respects the comparator, a missing key for an addition to the cache, a
present key for `scraft_hashtable_delete`. `Cache.Access` and the methods named `Replay`,
`ReplayBoth`, `Perform` and `Act` are not functions of the repository; they drive the cache, the
carrier, the scheduler and the allocator from their creation through any sequence of commands, so
that the results about whole runs speak of the classes themselves.

**Inputs.** What epoll, mmap, the clock, the network and other threads supply are parameters: the
events and messages of a refresh, the address of a fresh zone, the sampled time, the bytes left
in the memory of a new uthread. Of mmap it is assumed that a new zone overlaps no mapped one.

## Where the code falls short of its evident intent

- A cache of capacity 2^32 - 1 that is full wraps its count to zero on the next addition and
  evicts nothing. `LruCache.AddedWithinCap` gives the exact condition: an addition keeps to the
  capacity if and only if the count has room for one more; `LruCache.LargestOverflows` is the
  failing case. `Cache.WithinCapacity` holds for every smaller capacity.
- `scraft_hashtable_remove` never lowers the slot's `size`. `HashTable.Table.SizeMiscounts` shows
  that `size` is the chain's length if and only if the number of entries ever removed from the
  slot is zero modulo 2^64. `HashTable.MiscountedSlot` inserts one entry and removes it: the chain
  is empty and `size` is one.

## Model

| member | source | states |
|---|---|---|
| Rbt.RbTree.constructor | util/scraft_rbt.c:201-204 | an empty, valid tree with a fresh black sentinel |
| Rbt.RbTree.RotateLeft | util/scraft_rbt.c:16-27 | exactly which fields of which nodes a left rotation changes, and when it moves the root |
| Rbt.RbTree.RotateRight | util/scraft_rbt.c:29-40 | the mirror image |
| Rbt.RbTree.BstInsert | util/scraft_rbt.c:6-14 | the new red leaf stands in the in-order sequence immediately before the first node whose key is not smaller, and is the only possible colour violation |
| Rbt.RbTree.InsertFixup | util/scraft_rbt.c:49-78 | the fixup ends (the violation climbs), keeps the in-order sequence, restores every red-black invariant and all links, with at most two rotations |
| Rbt.RbTree.Insert | util/scraft_rbt.c:42-80 | insertion splices exactly the new node in before the first key not smaller and leaves a valid red-black tree, with at most two rotations |
| Rbt.RbTree.Find | util/scraft_rbt.c:184-199 | a member whose key compares equal, or nothing exactly when no key in the tree does |
| Rbt.RbTree.Min | util/scraft_rbt.c:83-100 | the first node in order, or the sentinel for an empty tree |
| Rbt.RbTree.Max | util/scraft_rbt.c:90-105 | the last node in order, or the sentinel |
| Rbt.RbTree.UnlinkInner | util/scraft_rbt.c:113-131 | the successor is relinked into the place and colour of the deleted node, and the hole it leaves, even if filled by the sentinel, has the right parent |
| Rbt.RbTree.DeleteFixup | util/scraft_rbt.c:134-176 | from a focus one black short, which may be the sentinel, the loop ends, restores every invariant and keeps the in-order sequence, with at most three rotations |
| Rbt.RbTree.Delete | util/scraft_rbt.c:107-177 | deletion takes exactly that node out of the in-order sequence, changes no other node's identity or key, and leaves a valid red-black tree, with at most three rotations |
| Rbt.InsertedSorted | util/scraft_rbt.c:6-14 | splicing before the first key not smaller keeps a sorted sequence sorted |
| Rbt.RbTree.Logarithmic | util/scraft_rbt.c:42-177 | a valid tree lists each of its n nodes once and is at most 2 log2(n + 1) high |
| RbShape.HeightBound | util/scraft_rbt.c:42-177 | the height bound for any red-black shape |
| RbShape.RotationKeepsInorder | util/scraft_rbt.c:16-40 | a rotation never changes the in-order sequence |
| RbShape.RedUncle | util/scraft_rbt.c:52-54 | recolouring under a red uncle moves the only violation two levels up |
| RbShape.BlackUncle | util/scraft_rbt.c:60-61 | recolouring and one rotation under a black uncle end the violation |
| RbShape.InnerToOuter | util/scraft_rbt.c:56-59 | the inner case becomes the outer case |
| RbShape.SiblingExists | util/scraft_rbt.c:135-141 | a focus one black short below the root has a real sibling |
| RbShape.RedSibling | util/scraft_rbt.c:138-142 | the red-sibling case keeps the shortage at the focus and gives it a black sibling |
| RbShape.BlackNephews | util/scraft_rbt.c:143-144 | the black-nephews case moves the shortage to the parent |
| RbShape.RedNearNephew | util/scraft_rbt.c:146-150 | the near-nephew case turns into the far-nephew case |
| RbShape.RedFarNephew | util/scraft_rbt.c:151-153 | the far-nephew case ends the shortage |
| LruCache.Cache.constructor | util/scraft_lru_cache.c:4-8 | an empty valid cache |
| LruCache.Cache.AddInner | util/scraft_lru_cache.c:10-16 | a missing key enters queue and tree; both still hold the same entries |
| LruCache.Cache.Add | util/scraft_lru_cache.c:25-29 | the whole new queue; an entry goes to the destructor exactly when the count exceeds the capacity, and it is the one whose last add or fetch is oldest |
| LruCache.Cache.Delete | util/scraft_lru_cache.c:18-23 | the entry leaves queue, tree and count, the order of the rest unchanged, and goes to the destructor |
| LruCache.Cache.Fetch | util/scraft_lru_cache.c:31-40 | a hit exactly when the queue holds the key, and then that entry moves to the front; a miss changes nothing |
| LruCache.Cache.WithinCapacity | util/scraft_lru_cache.c:25-29 | between operations size is the number of entries in queue and tree and at most the capacity, for every capacity below 2^32 - 1 |
| LruCache.Cache.Access | util/scraft_lru_cache.c:10-40 | a fetch that adds a new entry on a miss is, on keys, the access of the plain recency list, for every capacity below 2^32 - 1 |
| LruCache.AddedWithinCap | util/scraft_lru_cache.c:25-29 | an addition keeps to the capacity if and only if the 32-bit count has room for one more |
| LruCache.LargestOverflows | util/scraft_lru_cache.c:25-29 | a full cache of capacity 2^32 - 1 takes one more entry and evicts none |
| LruCache.AddedListed | util/scraft_lru_cache.c:10-16 | an addition keeps the queue in order of last use, without equal keys |
| LruCache.TouchedListed | util/scraft_lru_cache.c:34-38 | so does moving a fetched entry to the front |
| LruCache.LastIsOldest | util/scraft_lru_cache.c:27-28 | the end of the queue is the entry unused for longest |
| LruCache.HitIsAccess | util/scraft_lru_cache.c:31-40 | on keys, a hit is the access of the plain recency list |
| LruCache.MissIsAccess | util/scraft_lru_cache.c:25-29 | so is an addition after a miss |
| LruCache.Inclusion | util/scraft_lru_cache.c:10-40 | on any trace the plain recency list of one capacity is, key by key, the front of that of any larger one |
| LruCache.FewerMisses | util/scraft_lru_cache.c:31-40 | on no trace does the larger list miss more often |
| LruCache.Replay | util/scraft_lru_cache.c:4-40 | a cache of capacity below 2^32 - 1 holds after any trace of accesses what the plain recency list holds, and misses as often |
| LruCache.ReplayBoth | util/scraft_lru_cache.c:4-40 | of two caches fed the same trace, with capacities below 2^32 - 1, the smaller holds the front of what the larger holds, its size is the smaller of its capacity and the other's size, and it misses at least as often |
| TimerDrain.TimerCompareThreeWay | p7/p7impl.c:342-346 | the timer comparator is a total preorder answering -1, 0 or 1 |
| TimerDrain.Carrier.constructor | p7/p7impl.c:208 | no timers, no coroutines, and a new tree |
| TimerDrain.Carrier.TimedEvent | p7/p7impl.c:651-663 | a new timer, for the running coroutine or for none, enters the tree in order of its time, and nothing else changes |
| TimerDrain.Carrier.AddEvent | p7/p7impl.c:348-351 | the same for a given timer that is on no tree |
| TimerDrain.Carrier.StartCoro | p7/p7impl.c:637-638 | a new coroutine joins the end of the run queue |
| TimerDrain.Carrier.Dispatch | p7/p7impl.c:574-585 | if the last coroutine to run still heads the queue it goes behind all others, otherwise the queue stays; then the head runs and may be rescheduled again |
| TimerDrain.Carrier.BlockRunning | p7/p7impl.c:860-866 | the running coroutine leaves the head of the run queue and is the last of the blocked; nobody else moves |
| TimerDrain.Carrier.PeekEarliest | p7/p7impl.c:358-362 | the timer of the first node in order, or none |
| TimerDrain.Carrier.Fire | p7/p7impl.c:466-477 | the fields and queues an expired timer changes |
| TimerDrain.Carrier.ExpireTimers | p7/p7impl.c:455-480 | the loop ends, takes off exactly the timers due, in non-decreasing order of time; of all timers ever armed exactly those due now or before are triggered, the others are on the tree; the coroutines of those fired are timed out, rescheduled, on the run queue once and not blocked; those not rescheduled before stand at its end in firing order, and everybody else stands as before |
| TimerDrain.FiredMarks | p7/p7impl.c:466-477 | firing marks exactly the timers fired, times out exactly their coroutines, and leaves these rescheduled and on the run queue |
| TimerDrain.FiredQueues | p7/p7impl.c:468-472 | the coroutines woken leave their queues and stand at the end of the run queue in firing order, everyone else's order kept |
| TimerDrain.MinusInOrder | p7/p7impl.c:469 | taking coroutines off a queue takes off exactly these and keeps the others in order |
| TimerDrain.FiredMoves | p7/p7impl.c:468-472 | the same as for the loop, of any sequence of timers: who leaves which queue, who stands where, each once |
| TimerDrain.PickIs | p7/p7impl.c:574-585 | what a dispatch does to queue and running coroutine |
| TimerDrain.StopIs | p7/p7impl.c:860-866 | what blocking does |
| TimerDrain.RunsWithin | p7/p7impl.c:455-585 | on every run of dispatches, starts, blocks and expiries a coroutine on the run queue is dispatched after at most as many dispatches as stand ahead of it, and one queue length more if a timer of its own can still send it to the end |
| TimerDrain.TimerWakes | p7/p7impl.c:455-585 | a coroutine whose timer fires is dispatched after at most as many dispatches as coroutines ever wait |
| TimerDrain.Replay | p7/p7impl.c:348-585 | over every sequence of starts, dispatches, blocks, armings and expiries from a new carrier: a timer is triggered if and only if an expiry at or after its time came after its arming, and is on the tree until then; the queues took a legal run of the turns above |
| CpBuffer.Exchanged | p7r/p7r_cpbuffer.h:31-35 | the flip succeeds exactly when the producer is not busy, and then hands over its whole list and leaves it an empty one |
| CpBuffer.StepInv | p7r/p7r_uthread.c:234-295 | every step of every producer and of the carrier keeps the protocol's invariant |
| CpBuffer.Protocol | p7r/p7r_cpbuffer.h:29-47 | over every run and for every box: drained, then consumer's list, then producer's list, then the message in flight are the messages posted, in order; the two sides never work on one list; in an infinite epoll_wait a box with messages has the eventfd up or a producer before its notification write |
| CpBuffer.WakesUp | p7r/p7r_uthread.c:246-276 | a carrier in an infinite epoll_wait with messages in a box can be woken by the eventfd, or the producer of the box has a step to take before |
| CpBuffer.AlwaysExchanges | p7r/p7r_cpbuffer.h:31 | the consumer's list is always empty when tested |
| CpBuffer.QuietRound | p7r/p7r_uthread.c:246-295 | while nobody posts, a round that is back at the top has drained every box and leaves the carrier free to sleep |
| CpBuffer.QuietRoundEnds | p7r/p7r_uthread.c:246-295 | it gets there: until then the carrier has a step to take, and it takes at most two, and six for every box and one for every message |
| CpBuffer.QuietSleeps | p7r/p7r_uthread.c:233-276 | a quiet round that began with a report of the eventfd, or with nothing to report, leaves the carrier asleep: it may wait without a timeout and the eventfd does not wake it |
| RwSpin.StepInv | p7/rwspin.c:19-55 | every step keeps tickets distinct and gap-free, the turn unique, n_readers equal to the number of counted readers |
| RwSpin.NoLostUpdate | p7/rwspin.c:28 | the two-step completion++ always adds exactly one |
| RwSpin.TicketsGrow | p7/rwspin.c:20 | a new ticket is later than every ticket in use |
| RwSpin.InvExclusive | p7/rwspin.c:36-55 | a thread in the write section excludes every reader and every other writer |
| RwSpin.InvFcfs | p7/rwspin.c:19-50 | every reader or writer inside has an earlier ticket than everyone still waiting, be it for the turn or for readers to drain; and whoever is past the turnstile has an earlier ticket than everyone spinning at it |
| RwSpin.DrainShrinks | p7/rwspin.c:44-49 | a writer whose turn has come waits only for readers with earlier tickets, and that set only shrinks |
| RwSpin.Progress | p7/rwspin.c:19-55 | while a thread waits, some thread can take a step that is neither spinning nor drawing a ticket |
| RwSpin.BoundedBypass | p7/rwspin.c:19-55 | whatever tickets others draw meanwhile, a thread with a ticket has been served after as many productive steps (neither spinning nor drawing) as were left to tickets up to its own |
| RwSpin.QuietRunEnds | p7/rwspin.c:19-55 | while nobody draws a ticket at most five productive steps a thread are taken, and there is one to take until everybody has entered and left |
| RwSpin.Simulates | p7/rwspin.c:19-55 | with fewer than 2^32 threads the lock with wrapping counters enables and does exactly what the unbounded one does |
| RwSpin.LockSafety | p7/rwspin.c:7-55 | over every run from creation of the 32-bit lock: whoever reads asked to read and whoever writes asked to write, by its last request in the run; a thread inside that asked to write excludes everybody else; entry in the order of the unbounded tickets the lock refines, and the invariant of the unbounded lock |
| RwSpin.ReadersShare | p7/rwspin.c:19-29 | in every reachable state of the 32-bit lock a thread that asked to read and whose turn it is gets in by four steps of its own, while every reader inside stays |
| RwSpin.WriterEnters | p7/rwspin.c:36-50 | and one that asked to write gets in by two when nobody reads |
| RwSpin.LockServes | p7/rwspin.c:7-55 | in every reachable state of the 32-bit lock a thread with a ticket has been served after five productive steps a thread, whoever takes them |
| Scheduler.Sched.Reenable | p7r/p7r_uthread.c:6-15 | a blocked uthread leaves the blocked ones for the end of the run queue and is running, the order of the others kept; for a running one nothing changes |
| Scheduler.Sched.BusRefresh | p7r/p7r_uthread.c:233-311 | exactly the blocked uthreads reported stand behind the old run queue, in the order of their reports, and are running; the others stay blocked in order; messages are queued in order; the dying are freed, each once; on failure nothing changes |
| Scheduler.Sched.CherryPick | p7r/p7r_uthread.c:313-325 | the first request, taken off its queue, or none |
| Scheduler.Sched.ReschedTarget | p7r/p7r_uthread.c:366-385 | rotation, then the head of the run queue or a new uthread that runs the first request; NULL exactly when there is neither |
| Scheduler.Sched.Yield | p7r/p7r_uthread.c:640-647 | the caller goes to the end of the run queue and the head runs; there always is one |
| Scheduler.Sched.BlockingPoint | p7r/p7r_uthread.c:575-595 | the caller leaves the run queue for the blocked ones and stays there, neither waiting nor running, unless a successful refresh of one of its rounds reports it; the loop goes on through exactly the refreshes that find nothing to run; what it does is a legal run of steps, returned as a ghost |
| Scheduler.Sched.Park | p7r/p7r_uthread.c:580-584 | the caller is the last of the blocked, off the run queue, with the status of a blocked uthread; nobody else moves |
| Scheduler.Sched.Finish | p7r/p7r_uthread.c:159-177 | a finished uthread is reborn with the first request and stays on the run queue, or else is on the dying queue alone, with the carrier in charge |
| Scheduler.Sched.CarrierTurn | p7r/p7r_uthread.c:501-514 | one round of the carrier: refresh, hire, dispatch; if a request waits after the refresh a new uthread on the run queue runs the first, and the rest wait |
| Scheduler.Sched.CreateLocal | p7r/p7r_uthread.c:565-570 | a local uthread joins the end of the run queue |
| Scheduler.StepKeeps | p7r/p7r_uthread.c:150-178 | every step keeps each uthread on exactly one queue and running NULL or the head; none appears but the one made, none disappears but those freed |
| Scheduler.ReaperSafe | p7r/p7r_uthread.c:297-308 | the reaper frees neither the stack it executes on, nor one that may be resumed, nor the one switched to |
| Scheduler.SchedulerSafety | p7r/p7r_uthread.c:150-178 | both, in every state reachable from the start of any carrier |
| Scheduler.StepDistance | p7r/p7r_uthread.c:366-385 | a scheduling decision brings a waiting uthread exactly one nearer; nothing else moves it |
| Scheduler.BoundedWaiting | p7r/p7r_uthread.c:366-385 | on every run a uthread at distance k is dispatched by the k-th decision from now and is not running in any state before it |
| Scheduler.RefreshWakes | p7r/p7r_uthread.c:233-311 | the effect of a refresh on every queue, as for BusRefresh |
| Scheduler.WokenRuns | p7r/p7r_uthread.c:6-15 | on every run a blocked uthread that a successful refresh reports is dispatched within as many decisions as uthreads run or are blocked |
| Scheduler.StaysBlocked | p7r/p7r_uthread.c:575-595 | on every run a blocked uthread stays blocked, and neither waits to run nor runs, until a successful refresh reports it |
| Scheduler.ReadyStays | p7r/p7r_uthread.c:150-178 | nobody leaves the run queue but who blocks or dies |
| Scheduler.StepRequests | p7r/p7r_uthread.c:159-177 | a step begins requests in the order in which they wait, and those that arrive queue up behind |
| Scheduler.RequestsInOrder | p7r/p7r_uthread.c:313-325 | over every run, births and rebirths included, no request is lost, begun twice or overtaken |
| Scheduler.Replay | p7r/p7r_uthread.c:159-647 | a new scheduler after any moves has made a legal run of the steps above, and the entrances its uthreads began with, then the request queue, are the requests that arrived, in order |
| StackAllocator.AdjustCapacity | p7r/p7r_stack_allocator.c:214-218 | the least multiple of the stack size that is not below the capacity |
| StackAllocator.Provider.constructor | p7r/p7r_stack_allocator.c:26-45 | the carving loop makes exactly capacity / stack-size stacks, the k-th at k strides with its red zone and content one page apart |
| StackAllocator.Provider.Tiles | p7r/p7r_stack_allocator_adaptor.h:21-26 | in a zone carved as the constructor carves it mark page, red zone and user region follow one another, and the user region ends exactly where the next stack or the zone does |
| StackAllocator.Provider.StacksApart | p7r/p7r_stack_allocator.c:32-45 | all stacks of a zone are disjoint and in bounds |
| StackAllocator.Provider.Allocate | p7r/p7r_stack_allocator.c:91-105 | the head of the free list, or NULL exactly when size is 0 |
| StackAllocator.Allocator.constructor | p7r/p7r_stack_allocator.c:230-249 | rounded capacities, full new masters in the zones given, which are disjoint, and no slaves |
| StackAllocator.Allocator.FindSlave | p7r/p7r_stack_allocator.c:161-168 | the search succeeds at the first slave or nowhere |
| StackAllocator.Allocator.AllocateFallback | p7r/p7r_stack_allocator.c:156-186 | a stack not yet out; from the first slave if it has one, otherwise from a new slave, and then every old one is exhausted; an exhausted giver goes to the end |
| StackAllocator.Allocator.AllocateHintless | p7r/p7r_stack_hint.c:82-97 | the cascade's order; a new slave is made exactly when the masters tried and every slave are exhausted |
| StackAllocator.Allocator.AllocateFrom | p7r/p7r_stack_allocator.c:277-292 | the same for the two sources, with a new slave exactly when the masters of the source and every slave are exhausted; NULL exactly for any other source |
| StackAllocator.Allocator.StacksDisjoint | p7r/p7r_stack_allocator.c:26-45 | every provider of a valid allocator is carved, and any two stacks handed out, of the same zone or of different ones, occupy disjoint memory |
| StackAllocator.Allocator.SlaveFreeAdjust | p7r/p7r_stack_allocator.c:107-128 | an exhausted slave moves to the front, and one that has everything back leaves the list |
| StackAllocator.Allocator.Free | p7r/p7r_stack_allocator.c:138-152 | the stack is back at the head of its provider's list, the slaves stand in the order the code gives them, and the provider goes exactly when it is a slave and this was its last stack out |
| StackAllocator.Allocator.Conservation | p7r/p7r_stack_allocator.c:91-152 | size counts the free list, and free and outstanding stacks make up the capacity |
| StackAllocator.Allocator.SlaveInUse | p7r/p7r_stack_allocator.c:144-150 | every slave has a stack out between operations |
| StackAllocator.Allocator.AllFreed | p7r/p7r_stack_allocator.c:138-152 | once everything is freed no slave remains and both masters are full |
| StackAllocator.Replay | p7r/p7r_stack_allocator.c:91-292 | over every sequence of allocations and frees from a new allocator: the stacks held do not overlap, no page of any zone is lost, every slave serves somebody, and with nothing held all is as at the start |
| HashTable.Table.constructor | util/scraft_hashtable.c:5-25 | every class is empty |
| HashTable.Table.Insert | util/scraft_hashtable.c:42-48 | the entry heads its chain with no hits; it is pushed on the stack of the key's class and on no other |
| HashTable.Table.Find | util/scraft_hashtable.c:50-57 | the first match of the chain, or none exactly if the class is empty there |
| HashTable.Table.Fetch | util/scraft_hashtable.c:59-68 | reads the top of the class, counts the hit, moves exactly that entry to the front of its chain, and thereby changes no stack |
| HashTable.Table.Remove | util/scraft_hashtable.c:70-78 | pops the stack of the class and no other; exactly that entry leaves its chain and size stays |
| HashTable.Table.Delete | util/scraft_hashtable.c:80-84 | pops a present key and passes it to the destructor if there is one |
| HashTable.Table.Destroy | util/scraft_hashtable.c:27-40 | the destructor gets the entries of all chains in order and none twice, every chain ends empty, and size is left at what removals never took off |
| HashTable.Table.ContentsOnce | util/scraft_hashtable.c:27-40 | the chains listed one after the other have every entry, and none twice |
| HashTable.ToFrontKeepsOrder | util/scraft_hashtable.c:64-65 | moving the first match to the front keeps the relative order of equal keys, for every key |
| HashTable.RemovedIsTop | util/scraft_hashtable.c:70-78 | the first match is the top of its class, and removing it leaves the other classes alone |
| HashTable.Table.SizeMiscounts | util/scraft_hashtable.c:70-78 | size is the chain's length if and only if nothing (modulo the counter) was removed |
| HashTable.MiscountedSlot | util/scraft_hashtable.c:42-78 | after one insertion and one removal the chain is empty and size is one |
| HashTable.DjbCString | util/scraft_hashtable.c:90-96 | wrapping at every step gives the polynomial in 33 modulo 2^64, up to the terminator |
| UtilList.RingUnique | include/util_list.h:12-20 | the sequence a ring holds is determined by its head |
| UtilList.AddBetween | include/util_list.h:22-27 | linking into any gap inserts into the sequence there |
| UtilList.AddHead | include/util_list.h:29-31 | prepends |
| UtilList.AddTail | include/util_list.h:33-35 | appends |
| UtilList.Del | include/util_list.h:37-45 | takes out exactly that node and isolates it |
| UtilList.IsEmpty | include/util_list.h:55-57 | both tests succeed exactly on the empty sequence |
| UtilList.Drain | include/util_list.h:64-66 | the removal loop visits every node once, in order, and leaves an empty ring |

## Left out

- `scraft_rbt_detach` and the `meta` field (util/scraft_rbt.c:79 and 179-182): not reliably set; the timer phase of the p7r refresh and of its delegations rests on them and is left out too.
- Changes of a key while its node is in a tree: the key is a constant of the node.
- Weak memory: `CpBuffer` and `RwSpin` assume sequential consistency.
- Fairness: `RwSpin` counts productive steps and shows that there is one to take, not that a scheduler runs every thread.
- Producers of one box are one at a time, as remote carriers (p7r/p7r_uthread.c:558-564) and the spinlock around foreign posts (p7r/p7r_api.c:81-85) make them; that spinlock is not modelled.
- Swarm scheduling: with tokens left and no request `sched_resched_target` returns NULL, which `p7r_yield` does not handle; the model has it off.
- Failure of stack allocation, of slave creation and of the other allocations; the scheduler is given a new uthread whenever it asks.
- A delegation is reported only for a blocked uthread or one that runs again (`Reportable`); a non-empty request queue is not claimed to keep a carrier awake, because the choice of timeout ignores it.
- Scheduler.Sched.BlockingPoint: the C loop may wait forever; the method runs as many rounds as it is given inputs.
- Context switching, epoll, eventfd flags, mmap, mprotect and clocks: switch steps, inputs and fresh zones.
- Overflow of 32-bit page counts in rounding, strides and `size`: capacities are assumed to fit.
- Stack hints with their statistics and dictionary, and the allocator's shutdown.
- Cancelling a timer (`timer_remove_event`) and arming an expired one again with a new time.
- Timer hooks that touch timers or queues, and the `condref` of a timer, which the code leaves to be done.
- The double-queue mailbox of p7 (p7/p7impl.c:552-558 and 739-744): a second instance of the buffer protocol.
- The ek3 reactor, the shared-object manager, the arena, `p7/spin.c`, the namespace, futures, start-up, closures and allocator plumbing.
