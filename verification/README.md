# Verified models of SELIB

SELIB is a C++ library of containers and concurrency helpers. This project models its most intricate
components in Dafny and proves what they are for. `dafny verify dfyconfig.toml` checks everything.

Concurrent components are state machines: a state holds the shared memory and the position of every
thread, and one step is one memory access (a load, a store, a compare-and-swap) of one thread. Theorems
quantify over any number of threads and over every schedule. An action that its thread cannot take leaves
the state alone, so no schedule has to be excluded. Where the object is a class that updates fields in
place, a class `Machine` performs the same steps on mutable fields and is proved to take exactly the steps
of the state machine (`Lifo`, `ArrayLock`, `ResourceStack`, `PChainMap`, `PQueue`).

| file | models | proved |
|---|---|---|
| `Lifo.dfy`, `LifoCalls.dfy` | `util/lifo.h`, `util/lifo.hpp` (x86_64 push and pop) | linearizability to abstract stacks, freedom from ABA, one event per call; arguments and results of every call, why a CAS fails, obstruction freedom |
| `ResourceStack.dfy`, `ResourceStackCalls.dfy` | `container/resource_stack.h` on top of `Lifo` | every holder in exactly one place, conservation of resources; when push and pop come back with nothing |
| `PoolMgr.dfy`, `PoolMgrCalls.dfy` | `framework/shining_pool.h` on top of `ResourceStack` | every element in exactly one place or dropped for want of a holder, no push fails, bounded production; exactly when pop goes on to force_pop and when it returns null |
| `BitArray.dfy`, `ArrayLock.dfy` | `util/bit_array.h`, `util/array_lock.h` | mutual exclusion with eight locks to a byte, exactly which steps commute, what every call returns and changes |
| `PChainMap.dfy`, `PChainMapCalls.dfy` | `container/pchain_map.h` | linearizability to one finite map, arguments and answers of every call, exactly when operations on different buckets commute |
| `PQueue.dfy`, `PQueueSafety.dfy`, `PQueueCalls.dfy` | `container/pqueue.h` | first-in first-out as long as no front stores null into `head.next`; exactly which reachable states are safe; `size`, `flushed` and `all_poped`; values and answers of every call |
| `Probing.dfy`, `LruSpec.dfy`, `LruRing.dfy`, `LruCache.dfy` | `container/circle_cache.h` | no stale hit despite duplicates, exactly when a run agrees with an LRU cache, eviction order, the ring and the table |
| `ChainHash.dfy` | `container/chain_hash.h` | refinement of a finite map |
| `Kmp.dfy` | `algorithm/kmp.cpp` | maximal borders, amortised cost |
| `QuickSort.dfy` | `algorithm/algo_sort.h` (`quick_sort_v1`) | termination, sortedness, permutation |
| `Fnv.dfy` | `util/hash_fun.h` | shifts multiply by the FNV prime, bijectivity, no collision of neighbours, where the code agrees with FNV-1 |
| `SequenceRecorder.dfy` | `container/sequence_recorder.h` | refinement of a sliding window |
| `Sums.dfy` | | totals over sequences, used by the counting arguments |

## How the parts fit

**Stacks, exchanges, pools.** `Lifo.Rel` relates memory to abstract stacks; `Lifo.Simulation` shows that any
step is one legal event on them or none, and `Lifo.RunLinearizes` carries that to whole runs. `ResourceStack`
and `PoolMgr` run their own steps and those of the stacks inside them, so their theorems cover every
interleaving down to single instructions. A push can be called only on a node that the caller owns.

**Calls and answers.** Events and invariants say what the shared objects do; the modules named `...Calls`, and
`ArrayLock.CallReturns`, tie that to the callers. They read the accepted calls of a thread from the schedule and show
that its effects and its answers are those of its calls, in order and with their arguments. The lemmas named
`AloneReturns` say that nobody waits for anything but a lock: a thread that runs alone finishes within a given number
of steps, wherever the other threads have stopped.

**Locks and the map.** `ArrayLock` reads its byte twice before the compare-and-swap; the invariant says
what each thread may still conclude from what it read. Threads unlock only what they hold.
`ArrayLock.StepsCommuteIff` says exactly when steps on different bits commute although the bits share a byte:
when neither thread commits into a byte that the other is about to read or compare. `PChainMap` runs the chain
walks of insert and find one access at a time between the steps of the lock, and
`PChainMap.DifferentBucketsCommuteIff` lifts that to operations on different buckets.

**The queue.** A push links its node and only then moves `tail` there. In between, a front can take that very
node, or store into `head.next` a null link that it read before the push. `PQueue.Simulation` and
`PQueue.QueueIsFifo` cover every run from the empty queue in which no front stores null into `head.next`.
`PQueueSafety.SafeIff` says, for every state that any schedule reaches, when that can no longer happen: no
continuation makes `tail` point to an unlinked node if and only if `tail` is off `head` and linked, and no front is
past the test of `tail` with the node `tail` points to or with a link it has read as null. Once null has been stored
the queue stays broken (`PQueueSafety.BrokenStays`). Fronts that poll the empty queue do no harm: as long as none is
careless, which means to go past the test of `tail` with the first node while `tail` is still `&head`, the queue is
safe as soon as `tail` has moved (`PQueueSafety.SafeIffPushed`). `PQueueSafety.FirstPushRace` is a concrete unsafe run.

**The cache.** `LruSpec` is the cache as a list of entries, least recently used first. Evictions clear
buckets, so `put` can add a second entry for a pair that is still present further along its probe sequence.
`LruSpec.Aligned` says that among entries for one pair the one probed earlier is the more recently used;
this is what keeps hits fresh. The theorems of `LruSpec` hold for every probe function that repeats no bucket
within one pass over the table; `Probing.TriangularIsOnePass` shows that triangular probing over a power-of-two
table is one. `LruCache` is the class with the source's two arrays and two indices. Its
`Put` and `Get` are proved to compute the functions of `LruSpec`, so the theorems about runs hold for it.

## Where the code and its documentation differ

- `util/hash_fun.h` names FNV, whose octets are unsigned, but `hash ^= *s` widens a signed `char`. The step is
  FNV-1 (draft-eastlake-fnv, section 2) exactly on bytes below 0x80: `Fnv.StepIsFnv1`, `Fnv.HashIsFnv1`. Two higher
  bytes in a row can cancel out; `Fnv.PairIsFnv1` says exactly when, and `Fnv.FromTheStart` is an example.
- `container/circle_cache.h` presents an LRU cache over keys, but a put that comes upon a free bucket before the
  live entry of its pair leaves two entries of the pair, which then use up two slots. `LruSpec.DuplicateRun` is
  such a run, in which a pair is given up that an LRU cache keeps. `LruSpec.PutDuplicatesIff` is the exact
  condition, and `LruSpec.RunIsLruIff` proves that a run agrees with an LRU cache over distinct pairs, in contents
  and answers, if and only if no put meets that condition or returns -1.
- `framework/shining_pool.h` bounds what the pool takes from memory by `_p_size`. When the allocator returns an
  element and there is no memory for its holder, `container/resource_stack.h:125-128` drops the element: it counts
  against the bound but is in no pool. `PoolMgr.LeakRun` is such a run, and `PoolMgr.RunKeepsElements` says that this
  is the only way to lose an element.
- `container/sequence_recorder.h` counts appends in an `int`. Counting past 2^31 - 1 is undefined in C++; if the
  `int` wraps around, as this model assumes, the count is then negative and the getters see nothing
  (`SequenceRecorder.SequenceRecorder.NothingSeen`); `SequenceRecorder.SequenceRecorder.Len` gives the exact condition.

## Model

| member | source | states |
|---|---|---|
| Lifo.InitRel | util/lifo.h:17-26 | an empty Lifo with idle threads represents empty stacks |
| Lifo.Simulation | util/lifo.hpp:165-252 | any step of any thread (loads, the `next` store, the CAS) is one legal push, pop or empty pop on the abstract stacks or no event, and memory represents the result: finite acyclic chains, no node in two places |
| Lifo.RunLinearizes | util/lifo.hpp:165-252 | every run is a legal sequential run of stacks and memory ends up representing the stacks that run leaves |
| Lifo.RunFromInit | util/lifo.hpp:165-252 | from empty stacks every run is legal, and the stacks it leaves are the only ones that memory then represents |
| Lifo.MemoryFixesStacks | util/lifo.h:17-26 | the stacks are a function of memory alone |
| Lifo.SyncUnchangedMeansChainUnchanged | util/lifo.hpp:166-174 | over any run, if `sync` is what it was then head and every node of the chain with its `next` are what they were, so ABA cannot happen |
| Lifo.StepSync | util/lifo.hpp:171-174 | `sync` never decreases, and a step that leaves it alone leaves the stack alone |
| Lifo.OneEventPerCall | util/lifo.hpp:186-252 | over any run each call takes effect exactly once; a call without an effect is still running |
| Lifo.NoWildAccess | util/lifo.hpp:220-228 | every node whose `next` is loaded or stored is allocated |
| Lifo.RelFacts | util/lifo.h:17-26 | nodes on a stack are allocated, nobody holds them, and no node has two holders |
| LifoCalls.CallsInOrder | util/lifo.hpp:186-252 | over any run the operations of a thread that took effect are its calls, in order, on the stacks and with the nodes it named, at most the last still without effect; its results are those of its events in the same order |
| LifoCalls.FailedCasMeansInterference | util/lifo.hpp:165-230 | a CAS fails only if another thread pushed or popped on that stack since this thread began to load (head, sync), or since its last CAS failed and reported them |
| LifoCalls.AloneReturns | util/lifo.hpp:165-252 | from any state, a thread that runs alone returns from push or pop within nine instructions, wherever the others have stopped |
| Lifo.Machine.Cmpxchg16b | util/lifo.hpp:173-174 | the double-width CAS writes iff (head, sync) are as expected, and reports what it saw |
| Lifo.Machine.Exec | util/lifo.hpp:165-252 | an instruction on memory updated in place is the step of the state machine |
| Lifo.Machine.Run | util/lifo.hpp:165-252 | any schedule performed in place ends in the state of the run theorems |
| ResourceStack.InitInv | container/resource_stack.h:24-53 | the invariant holds before any holder is made |
| ResourceStack.StepKeepsInv | container/resource_stack.h:55-135 | whatever step comes next is legal for the two stacks and keeps the invariant: holders filled on `_aviable`, each thread's hands as its position says |
| ResourceStack.StepHolders | container/resource_stack.h:84-93 | holders in the stacks and in hands change only by the one that create or produce makes |
| ResourceStack.RunConservesHolders | container/resource_stack.h:84-135 | over any run the holders of an instance are the created ones plus one per produce, and each is in one of its places |
| ResourceStack.OnePlace | container/resource_stack.h:55-80 | a holder is never in two of `_empty`, `_aviable` and the hands of threads, and no two threads have it |
| ResourceStack.StepPlaced | container/resource_stack.h:55-135 | a holder stays with its instance, in one of its stacks or in hands working on it |
| ResourceStack.StepStored | container/resource_stack.h:55-80 | the stored resources change only by a push that returns true and a pop that returns a resource |
| ResourceStack.RunConservesResources | container/resource_stack.h:55-80 | over any run: stored after plus popped equals stored before plus pushed, as multisets |
| ResourceStack.RunFromInit | container/resource_stack.h:55-135 | from no holders at all, under any schedule: holders in the stacks and in hands are the ones made, each in one of its places, and pushed equals popped plus stored |
| ResourceStack.WritesOwn | container/resource_stack.h:64-76 | `_p` is written only in a holder that the writer alone has |
| ResourceStack.CallProgress | container/resource_stack.h:55-135 | each operation goes through its stages in order and returns what the stages say |
| ResourceStackCalls.CallsInOrder | container/resource_stack.h:55-135 | over any run the operations a thread has returned from are its calls, in order, with their instances and resources: produce returns what the producer gave, null without an element or a holder; a push of null returns false |
| ResourceStackCalls.CallReturns | container/resource_stack.h:55-80 | from call to return under any interleaving: push of a resource returns false iff it found `_empty` empty on the way, pop returns null iff it found `_aviable` empty |
| ResourceStackCalls.EmptyHoldersAreNull | container/resource_stack.h:75-132 | over any run an empty holder, on `_empty` or in hands, has a null `_p`, unless create made it and no push has filled it yet |
| ResourceStackCalls.AloneReturns | container/resource_stack.h:55-135 | no operation waits: from any reachable state a thread that runs alone returns within fifteen steps |
| ResourceStack.Machine.Exec | container/resource_stack.h:55-135 | the accesses to holders and stacks in place are the step of the state machine |
| ResourceStack.Machine.NewHolder | container/resource_stack.h:86-132 | a new holder belongs to its instance and starts onto `_empty`; its resource is null in produce and uninitialised in create |
| PoolMgr.InitInv | framework/shining_pool.h:117-145 | the invariant holds in the initial state |
| PoolMgr.FreeHolder | framework/shining_pool.h:99-115 | while a thread still looks for an empty holder in a pool, that pool has one |
| PoolMgr.PushSucceeds | framework/shining_pool.h:99-102 | in every state that keeps the invariant a push that returns returns true |
| PoolMgr.Balance | framework/shining_pool.h:99-115 | in one step the elements gained by the places of the pool, or dropped, are those lost by others or made by the allocator |
| PoolMgr.StepElements | framework/shining_pool.h:99-216 | the elements in use, with the one dropped in the step, grow by what the allocator made in it |
| PoolMgr.StepKeepsInv | framework/shining_pool.h:99-216 | every step of the submitter or a worker keeps the invariant and is legal for the pools |
| PoolMgr.LostByLeaks | container/resource_stack.h:117-128 | over a run something new is dropped iff some step of it got an element and no holder |
| PoolMgr.RunKeepsElements | framework/shining_pool.h:99-216 | over every run every element the allocator made is in exactly one place or was dropped, none is dropped iff no holder allocation failed after the allocator returned an element, at most `pool_size` are made, and no push into either pool fails |
| PoolMgr.LeakRun | container/resource_stack.h:117-128 | a concrete run in which the one element made is lost |
| PoolMgrCalls.ForceAccount | framework/shining_pool.h:104-115 | over any run from init, `_p_size` plus the force_pop calls made, the running one not yet deducted, is pool_size; a pop that found the producer pool empty goes on to force_pop iff fewer than pool_size have been made, and returns null otherwise |
| PoolMgrCalls.PopReturns | framework/shining_pool.h:104-115 | from call to return under any interleaving: pop returns null iff `_p_size` was used up at its test, or force_pop got a null element or no holder; and never without having found the producer pool empty |
| PoolMgrCalls.Flow | framework/shining_pool.h:99-214 | what push is given enters the consumer pool, workers take from there and give to the producer pool, and pop returns what it took from there or what force_pop made |
| PoolMgrCalls.WorkersWaitForStart | framework/shining_pool.h:147-157 | over any run no worker touches a pool before start |
| PoolMgrCalls.CallsBegin | framework/shining_pool.h:99-214 | nothing keeps a thread at rest from going on: pop, push, a round of create, a round of a worker after start |
| PoolMgrCalls.AloneReturns | framework/shining_pool.h:99-214 | from any reachable state a thread that runs alone is through pop, push or its round within 35 steps, or needs the allocator |
| BitArray.SetLaw | util/array_lock.h:95-101 | setting an offset of a byte sets that bit and leaves the seven others |
| BitArray.ClearLaw | util/array_lock.h:103-111 | clearing an offset clears that bit and leaves the seven others |
| BitArray.SetClearLaw | util/array_lock.h:54-61 | setting forgets an earlier clear; clearing a clear bit changes nothing |
| BitArray.PositionIsDivMod | util/bit_array.h:160-165 | shifting by three and masking with seven, bit by bit, are division and remainder by eight, for every position |
| BitArray.BitArray.constructor | util/bit_array.h:31-58 | every bit is clear and the loop computes the shift for one-byte elements |
| BitArray.BitArray.GetPosition | util/bit_array.h:160-165 | the shift and the mask give quotient and remainder |
| BitArray.BitArray.TestBit | util/bit_array.h:65-88 | reads exactly the bit, and false out of range |
| BitArray.BitArray.SetBit | util/bit_array.h:90-107 | exactly one bit of the array becomes set, none out of range |
| BitArray.BitArray.ClearBit | util/bit_array.h:109-127 | exactly one bit of the array becomes clear, none out of range |
| ArrayLock.StepKeepsInv | util/array_lock.h:39-91 | every memory access of any thread keeps: a bit is set iff held, at most one holder, and what each pending CAS assumes |
| ArrayLock.CasFlipsOwnBit | util/array_lock.h:50-65 | a successful CAS changes the caller's own bit and none of the seven others, whatever happened to the byte since it was read |
| ArrayLock.BitIffExactlyOneHolder | util/array_lock.h:39-91 | in every reachable state the bit is set iff some thread holds the lock, and then only one does |
| ArrayLock.FailedCasMeansInterference | util/array_lock.h:39-66 | a failed CAS implies that another thread's CAS on that byte succeeded after the caller's first look |
| ArrayLock.QuietByte | util/array_lock.h:50-65 | while nobody's CAS on a byte succeeds, the byte stays what a waiting thread read |
| ArrayLock.StepsCommuteIff | util/array_lock.h:39-91 | steps of threads on different bits commute iff neither commits into a byte that the other is about to read, or to compare with a value it holds before or after the commit |
| ArrayLock.UndisturbedActsAlike | util/array_lock.h:43-65 | a thread acts the same before and after another's step on a different bit, unless that step commits into the byte it is about to read or compare |
| ArrayLock.DisturbedDiffers | util/array_lock.h:50-65 | in the excepted case the two orders end in different states |
| ArrayLock.UnlockNeverRefused | util/array_lock.h:79-91 | unlock by the holder never takes the error return |
| ArrayLock.CallReturns | util/array_lock.h:39-91 | from call to return under any interleaving: the caller changes no bit and nothing it holds until the last access, which returns true iff it flips the very bit of the call, and then the caller has gained or given up that lock alone; lock and unlock return only so |
| ArrayLock.AloneReturns | util/array_lock.h:39-91 | an operation that finds its bit as it wants it returns within five accesses of a thread that runs alone |
| ArrayLock.TryAlone | util/array_lock.h:39-66 | while no other thread steps, try_op returns true iff the bit differs from what it is to become; refused, it leaves everything as it was |
| ArrayLock.LockSpins | util/array_lock.h:69-76 | lock spins for as long as the bit is set |
| ArrayLock.Machine.CompareAndSwap | util/array_lock.h:65 | the one-byte CAS |
| ArrayLock.Machine.Exec | util/array_lock.h:39-91 | the accesses of lock, try_op and unlock on the bit array in place are the step of the state machine |
| PChainMap.Simulation | container/pchain_map.h:42-87 | any step is one legal insert, hit or miss on a finite map, or none, and the chains hold the resulting map |
| PChainMap.TouchedUnderLock | container/pchain_map.h:89-107 | every access to a chain, read or write, is made while its bit is set and held by that thread alone, and nobody else is in that chain |
| PChainMap.DifferentBucketsCommuteIff | container/pchain_map.h:42-107 | any two steps of operations on different buckets, locking, walking or unlocking, commute iff neither commits into a lock byte that the other is about to read or compare |
| PChainMap.OnlyCriticalTouches | container/pchain_map.h:42-87 | a step outside the critical sections leaves every chain alone |
| PChainMap.CriticalStepsCommute | container/pchain_map.h:42-87 | steps of two threads inside their critical sections, entering unlock included, always commute |
| PChainMap.RunLinearizes | container/pchain_map.h:42-87 | every interleaving of inserts and finds is a legal sequential run on one map |
| PChainMap.RunFromInit | container/pchain_map.h:42-87 | from empty chains every run is legal on the empty map, and the map it leaves is the only one that the chains then hold |
| PChainMap.ChainsFixMap | container/pchain_map.h:42-87 | the map is a function of the chains alone |
| PChainMap.OneEventPerCall | container/pchain_map.h:42-87 | every call takes effect exactly once between call and return |
| PChainMap.AnswerIsTheEvent | container/pchain_map.h:74-87 | what find returns is what its event says |
| PChainMapCalls.CallsInOrder | container/pchain_map.h:42-87 | over any run the operations of a thread that took effect are its calls, in order, with their keys and values; its answers are those of its events in the same order |
| PChainMapCalls.CallsFromInit | container/pchain_map.h:42-87 | from empty chains: the k-th effect of a thread is that of its k-th call with its arguments, the k-th answer is the one of that effect, and only the last call may lack either |
| PChainMapCalls.FindAnswersLastInsert | container/pchain_map.h:42-87 | from empty chains every find answers the value of the last insert of its key that took effect before it, null if there was none |
| PChainMapCalls.FindAfterInsert | container/pchain_map.h:42-87 | after insert(k, v) has returned, with no other insert of k on its way or called, every find of k answers v |
| PChainMapCalls.AloneReturns | container/pchain_map.h:42-107 | where nobody holds its bucket, a thread that runs alone finishes within a number of accesses bounded by the length of the chain |
| PChainMap.Machine.Access | container/chain_hash.h:87-143 | one access to the chain, in place, is the chain step of the state machine |
| PChainMap.Machine.Exec | container/pchain_map.h:42-107 | lock, walk and unlock in place are the step of the state machine |
| PQueue.Simulation | container/pqueue.h:75-120 | unless it stores null into head.next, any step from a state that represents a queue is one legal event of a first-in first-out queue that never gives up its last node, and memory represents the result |
| PQueue.QueueIsFifo | container/pqueue.h:75-120 | from the empty queue, any interleaving in which no front stores null into head.next is a legal first-in first-out run: popped then linked is what was pushed in linking order, and `size` is right |
| PQueueSafety.SafeIff | container/pqueue.h:84-111 | in every reachable state: no continuation lets tail point to an unlinked node iff tail is off head and linked and no front is past the test of tail with the node tail points to or with a link it read as null |
| PQueueSafety.SafeStep | container/pqueue.h:84-111 | a safe state stays safe under every step, and that step stores no null and is a legal event |
| PQueueSafety.BrokenStays | container/pqueue.h:84-111 | once null has been stored into head.next it stays there, whatever is pushed |
| PQueueSafety.StoringBreaks | container/pqueue.h:99-111 | a front that stores null into head.next leaves the queue in that broken state |
| PQueueSafety.ReaderBreaks | container/pqueue.h:99-111 | a front past the test of tail with the node tail points to, or with a null link, can be let run so that tail is unlinked |
| PQueueSafety.AtHeadBreaks | container/pqueue.h:84-111 | while tail is &head, whatever the threads are doing, some continuation leaves tail unlinked |
| PQueueSafety.SafeIffPushed | container/pqueue.h:84-105 | after any run with no careless front, nothing null has been stored, and the queue is safe iff tail has moved off head |
| PQueueSafety.CarelessIsUnsafe | container/pqueue.h:99-111 | right after any front passes the test of tail with the first node while tail is &head, some continuation leaves tail unlinked |
| PQueueSafety.FirstPushRace | container/pqueue.h:86-105 | a concrete run in which front removes the node tail is about to point to |
| PQueueSafety.WindowBreaks | container/pqueue.h:86-105 | whenever a push is between its two stores on an empty queue, a front run now leaves tail unlinked |
| PQueue.RunIsFifo | container/pqueue.h:75-120 | from any state represented by a queue, every run that stores no null is a legal run of that queue, which only grows at one end and is consumed at the other |
| PQueueSafety.SafeNowIs | container/pqueue.h:86-87 | tail being linked, as seen by following next from head, is tail pointing to a live node of the abstract queue |
| PQueue.FrontFailsIff | container/pqueue.h:101-111 | a front that found a node returns -1 iff one node is left and its push has moved tail, or a second one is linked whose push has not; it passes the null test iff it found a node |
| PQueue.NoWildAccess | container/pqueue.h:84-115 | every node a step dereferences or deletes is allocated |
| PQueue.StepSize | container/pqueue.h:90-117 | `size` is linked nodes less pushes not yet counted plus pops not yet discounted, modulo 2^32, after every step |
| PQueue.AllPopedExact | container/pqueue.h:48-61 | at rest with nothing pushed after the flush, all_poped holds iff every real value has been popped; without a dummy it is false |
| PQueue.FlushedIff | container/pqueue.h:48-61 | after a run that stores no null, with no thread inside flush, `flushed` holds iff a dummy has been pushed, and until then all_poped is false |
| PQueue.RunFlush | container/pqueue.h:48-55 | over every run whatever, `flushed` is set, or about to be set by a flush, iff a dummy has been linked |
| PQueue.AllPopedIff | container/pqueue.h:57-61 | in every state, threads anywhere: all_poped holds iff `flushed` and the nodes linked or popped and not yet discounted are one more than those not yet counted |
| PQueueCalls.LinkedInOrder | container/pqueue.h:48-92 | over any run that stores no null, what a thread has linked is what it called push and flush with, value by value, in order |
| PQueueCalls.NothingLost | container/pqueue.h:75-120 | from the empty queue, over any run that stores no null, every allocated node is linked or in the hands of a thread that has yet to link or delete it |
| PQueueCalls.CallsReturnInOrder | container/pqueue.h:48-120 | over every run whatever, the calls of a thread return in order, each with an answer of its own kind, at most the last still running |
| PQueueCalls.AloneReturns | container/pqueue.h:48-120 | a thread that finds its lock free and runs alone finishes within ten accesses |
| PQueue.Machine.ExecPush | container/pqueue.h:75-92 | the stores of push and flush in place are the step of the state machine |
| PQueue.Machine.ExecFront | container/pqueue.h:95-120 | the accesses of front in place, locked and unlocked, are the step of the state machine |
| Probing.ProbeInjective | container/circle_cache.h:237-243 | two probes within one pass over a power-of-two table never meet |
| Probing.TriangularIsOnePass | container/circle_cache.h:237-243 | triangular probing over a power-of-two table stays inside it and repeats no bucket within one pass, the condition the theorems of LruSpec need |
| Probing.ProbeVisitsEachOnce | container/circle_cache.h:237-243 | one pass visits every bucket, each at exactly one probe |
| Probing.ProbeAdvances | container/circle_cache.h:237-243 | probe 0 is the key modulo the table size and probe i goes on from probe i - 1 by i |
| LruSpec.GetFindsNewest | container/circle_cache.h:207-218 | the scan of get stops at the most recently used entry of the pair, and finds one iff there is one |
| LruSpec.PutAligns | container/circle_cache.h:220-235 | the bucket where put stops is probed before every other entry of the pair |
| LruSpec.PutOverwritesNewest | container/circle_cache.h:72-93 | where put overwrites, it overwrites the newest entry of the pair |
| LruSpec.PutKeepsInv | container/circle_cache.h:65-96 | put keeps probe order and recency aligned and the newest entries carrying the latest values |
| LruSpec.GetKeepsInv | container/circle_cache.h:98-110 | get keeps the invariant, hits iff the pair is present, and a hit is the latest value |
| LruSpec.GetReturnsLatestPut | container/circle_cache.h:65-110 | after any run from the empty cache a hit returns the value of the latest successful put of the pair |
| LruSpec.PutNeverFails | container/circle_cache.h:27-30 | put does not return -1 when `max_probing` is at least the capacity, hence none when it is at least `_hash_size` |
| LruSpec.PutFailsIff | container/circle_cache.h:220-235 | put returns -1 iff the bucket of every probe below both the table size and `max_probing` belongs to another pair |
| LruSpec.LiveWithinProbes | container/circle_cache.h:220-235 | every live entry sits at a probe of its key within the table size and `max_probing` |
| LruSpec.PutTakesFirst | container/circle_cache.h:220-235 | put takes the first probe within the table size and `max_probing` that does not belong to another pair |
| LruSpec.RunByLastUse | container/circle_cache.h:161-205 | the live entries stay in order of last use over any run, so the evicted one is the least recently used |
| LruSpec.RecentSurvives | container/circle_cache.h:65-110 | an entry used recently enough is found after any further operations that fit in the capacity |
| LruSpec.UsedStaysRetrievable | container/circle_cache.h:65-110 | from the empty cache: a pair just put or hit is found, with its latest value, after any next capacity - 2 operations |
| LruSpec.PutDuplicatesIff | container/circle_cache.h:220-235 | starting with at most one entry of the pair, put leaves two iff the pair has an entry that the eviction spares and a free bucket is probed before it |
| LruSpec.PutIsLruIff | container/circle_cache.h:65-96 | without duplicates put does what an LRU cache over distinct pairs does iff it succeeds and does not shadow a live entry |
| LruSpec.GetIsLru | container/circle_cache.h:98-110 | without duplicates get answers and reorders as an LRU cache over distinct pairs |
| LruSpec.RunIsLruIff | container/circle_cache.h:65-110 | a run from the empty cache agrees with an LRU cache over distinct pairs throughout iff no put shadows a live entry or fails; it is free of duplicates iff none shadows |
| LruSpec.DuplicateRun | container/circle_cache.h:65-110 | a concrete run that ends with two entries of one pair and without one that an LRU cache keeps |
| LruRing.Rotate | container/circle_cache.h:161-183 | turning the circle by one slot keeps it one circle |
| LruRing.Unlink | container/circle_cache.h:185-205 | taking a slot out leaves one circle of the others, with `next` and `last` inverse |
| LruRing.Link | container/circle_cache.h:185-205 | putting a slot in gives one circle again |
| LruRing.Occupy | container/circle_cache.h:72-86 | filling a free slot and an empty bucket keeps live slots and occupied buckets in bijection |
| LruRing.Evict | container/circle_cache.h:161-183 | clearing the oldest slot's bucket keeps the bijection for the rest |
| LruRing.Reorder | container/circle_cache.h:185-205 | moving a slot to the recent end moves its entry there and nothing else |
| LruCache.MakeRing | container/circle_cache.h:47-57 | the loop of init makes one circle through all slots in index order |
| LruCache.LruCache.Init | container/circle_cache.h:23-60 | a fresh cache is valid and empty; its table is the least power of two above twice the capacity |
| LruCache.LruCache.GetBitPos | container/circle_cache.h:246-255 | the floor of the base-two logarithm |
| LruCache.LruCache.GetProbingBucket | container/circle_cache.h:207-218 | the first probed bucket that holds the pair, or the invalid index |
| LruCache.LruCache.PutProbingBucket | container/circle_cache.h:220-235 | the first probed bucket that is free or holds the pair; the invalid index iff every bucket within `max_probing` probes belongs to another pair |
| LruCache.LruCache.DeleteSlot | container/circle_cache.h:185-205 | exactly the two neighbours' links change |
| LruCache.LruCache.InsertBeforeHead | container/circle_cache.h:185-205 | the slot goes in before head, and tail moves on if it was this slot |
| LruCache.LruCache.ReadAdjust | container/circle_cache.h:185-205 | a live slot moves to the recent end of one circle, through every aliasing of neighbours, head and tail |
| LruCache.LruCache.WriteAdjust | container/circle_cache.h:161-183 | head advances; a full circle gives up its tail slot and that slot's bucket |
| LruCache.LruCache.WriteEntry | container/circle_cache.h:72-86 | the writes of put to bucket and slot, and to no other |
| LruCache.LruCache.PutEntry | container/circle_cache.h:72-93 | once a bucket is found, the writes and the adjustment of put compute LruSpec.Put on the live entries |
| LruCache.LruCache.Put | container/circle_cache.h:65-96 | the class computes LruSpec.Put on its live entries and stays valid; it returns -1 iff the bucket of every probe within `max_probing` belongs to another pair |
| LruCache.LruCache.Get | container/circle_cache.h:98-110 | returns the latest value put for the pair iff it is present, makes it most recent, and stays valid |
| ChainHash.ChainHashMap.Find | container/chain_hash.h:87-102 | the entry of the key with its value, null iff the map lacks the key |
| ChainHash.ChainHashMap.Insert | container/chain_hash.h:104-143 | both `overwritten` modes act as on a finite map; false and unchanged iff an entry is needed and there is no memory |
| ChainHash.ChainHashMap.SetNext | container/chain_hash.h:131-138 | appending an entry to a chain adds one key and keeps chains disjoint, acyclic and free of duplicates |
| ChainHash.ChainHashMap.UnlinkFirst | container/chain_hash.h:155-159 | taking out the first entry of a chain removes its key alone |
| ChainHash.ChainHashMap.UnlinkNext | container/chain_hash.h:159-164 | taking out an entry inside a chain removes its key alone |
| ChainHash.ChainHashMap.Remove | container/chain_hash.h:145-166 | removes the key from the map, and nothing if it is absent |
| ChainHash.ChainHashMap.Clear | container/chain_hash.h:193-202 | the map is empty |
| ChainHash.ChainHashMap.Run | container/chain_hash.h:87-202 | any run of operations gives the answers and the contents of the finite map |
| ChainHash.KeysAreIndependent | container/chain_hash.h:87-202 | after any run a key's value is the one that the operations naming it, and the clears, alone produce |
| ChainHash.LastWriteStays | container/chain_hash.h:87-202 | from the empty table a key has the value that the last operation about it left, where an insert that does not overwrite gives way to a value that is there |
| ChainHash.CutOut | container/chain_hash.h:155-164 | a chain without one entry keeps every other key and value |
| ChainHash.CutLinks | container/chain_hash.h:155-164 | redirecting the predecessor, or the table slot, leaves exactly the chain without the entry |
| Kmp.MakeSkip | algorithm/kmp.cpp:10-32 | `skip[i]` is the longest proper border of the first i characters, -1 for i = 0; fewer than `len` fallbacks in total |
| Kmp.LongestExtended | algorithm/kmp.cpp:18-27 | the inner loop finds the longest border that the next character extends, at the cost of the length it gives up |
| Kmp.BorderOfBorder | algorithm/kmp.cpp:24-25 | borders of a border are exactly the shorter borders |
| Kmp.BorderStep | algorithm/kmp.cpp:20-29 | the borders of one more character are those followed by that character, grown by one |
| Kmp.Grow | algorithm/kmp.cpp:28-29 | one more than the longest extended border is the longest border |
| Kmp.VisitsAllBorders | algorithm/kmp.cpp:24-25 | falling back through the table visits exactly all proper borders |
| QuickSort.Partition | algorithm/algo_sort.h:4-33 | rearranges the range around its first element, and stops short of the end when the last element was a maximum |
| QuickSort.QuickSortV1 | algorithm/algo_sort.h:1-41 | for every length from 1 on terminates with the range sorted, a permutation, the rest untouched |
| QuickSort.LookHigh | algorithm/algo_sort.h:10-16 | the iteration from the high end keeps the parts and the multiset with the pivot in the hole |
| QuickSort.LookLow | algorithm/algo_sort.h:16-22 | the iteration from the low end keeps them too |
| QuickSort.FullRangeRank | algorithm/algo_sort.h:34-36 | the left range ends with its maximum, which is why a call on the whole range again happens once at most |
| QuickSort.Assemble | algorithm/algo_sort.h:34-40 | sorting both sides of the pivot sorts the whole and permutes it |
| Fnv.ShiftsMultiply32 | util/hash_fun.h:24-25 | the shifts and additions multiply by 16777619 modulo 2^32 |
| Fnv.ShiftsMultiply64 | util/hash_fun.h:48-49 | the shifts and additions multiply by 0x100000001b3 modulo 2^64 |
| Fnv.StepBijective32 | util/hash_fun.h:37-39 | the 32-bit step is a bijection on the hash, with an explicit inverse |
| Fnv.StepBijective64 | util/hash_fun.h:60-62 | the 64-bit step is a bijection on the hash, with an explicit inverse |
| Fnv.StepIsFnv1 | util/hash_fun.h:24-26 | a step is the FNV-1 step iff the byte is below 0x80 |
| Fnv.HighByteInverts | util/hash_fun.h:24-26 | a byte above 0x7f leaves the low byte of the FNV-1 step and inverts all bits above it |
| Fnv.HashIsFnv1 | util/hash_fun.h:31-66 | a buffer with at most one byte above 0x7f hashes to its FNV-1 value iff it has none |
| Fnv.PairIsFnv1 | util/hash_fun.h:31-66 | a buffer whose only bytes above 0x7f are two in a row hashes to its FNV-1 value iff the hash up to the first of them ends in 0x80, at both widths |
| Fnv.FromTheStart | util/hash_fun.h:18-26 | from the documented start values: the published FNV-1 values of a one-byte text, and a pair of high bytes on which the code agrees with FNV-1 |
| Fnv.OneByteNeverCollides | util/hash_fun.h:31-66 | equal-length buffers that differ in exactly one byte have different hashes |
| Fnv.StartsStayApart | util/hash_fun.h:31-66 | for any step that can be told back, over any buffer, equal results iff equal start values |
| Fnv.OneByteShows | util/hash_fun.h:31-66 | for any such step, changing one byte of a buffer changes the result |
| Fnv.StepsAreInjective | util/hash_fun.h:24-62 | both steps are such steps: the state before, or the byte, follows from the state after |
| Fnv.FoldConcat | util/hash_fun.h:31-66 | a result handed on as the next start value hashes the concatenation |
| Fnv.Text | util/hash_fun.h:21-29 | the text is everything before the first zero byte, whatever the bytes |
| Fnv.Fnv32 | util/hash_fun.h:21-29 | hashes the text before the terminating zero |
| Fnv.Fnv64 | util/hash_fun.h:45-53 | hashes the text before the terminating zero |
| Fnv.Fnv32Buf | util/hash_fun.h:31-43 | hashes the first n bytes, none for negative n |
| Fnv.Fnv64Buf | util/hash_fun.h:55-66 | hashes the first n bytes, none for negative n |
| SequenceRecorder.WindowSlides | container/sequence_recorder.h:34-47 | one more value slides the window of the last LEN values by one |
| SequenceRecorder.Appended | container/sequence_recorder.h:34-47 | the index updates of append keep the buffer showing the window |
| SequenceRecorder.SequenceRecorder.Append | container/sequence_recorder.h:34-47 | the history grows by the value and the buffer shows its last LEN values |
| SequenceRecorder.SequenceRecorder.Clear | container/sequence_recorder.h:49-54 | the history is empty, wherever the indices were |
| SequenceRecorder.SequenceRecorder.Len | container/sequence_recorder.h:77-80 | the size of the window iff the 32-bit count has not fallen below it, always within 2^31 - 1 appends since the last clear; never more |
| SequenceRecorder.SequenceRecorder.Seen | container/sequence_recorder.h:56-102 | what the getters see is the whole window iff the 32-bit count has not fallen below its size |
| SequenceRecorder.SequenceRecorder.NothingSeen | container/sequence_recorder.h:77-80 | while the wrapped count is negative the getters see nothing of a window that is not empty |
| SequenceRecorder.SequenceRecorder.GetEvery | container/sequence_recorder.h:56-64 | the part of the window that get_len admits, oldest first, cut to the slots offered; other slots stay; returns get_len |
| SequenceRecorder.SequenceRecorder.GetSum | container/sequence_recorder.h:66-75 | the sum of the part of the window that get_len admits |
| SequenceRecorder.SequenceRecorder.GetCount | container/sequence_recorder.h:90-102 | the occurrences of a value in the part of the window that get_len admits |

## Left out

- Weak memory orders and the wrap-around of `sync`: memory is sequentially consistent and `sync` is unbounded.
- `Lifo` for i386, `tryPush` and `tryPop`: the same protocol again, and tryPop reports nothing useful on an empty stack.
- Reclamation: destructors and `destroy` only free memory; nodes of a `Lifo` are not freed while in use.
- Failing allocation, except in `ResourceStack::produce` and `ChainHashMap::insert`, where both branches are modelled.
- `PoolMgr` is a state machine on values, not a class: its two pools are `ResourceStack` states. In-place update of `_p_size` is the state's next value.
- `PoolMgr::pop` from several submitters (`_p_size` is not updated atomically), thread creation, joining, `_alive` and liveness.
- PoolMgr.RunKeepsElements: takes for granted that the submitter pushes only elements it popped and that the allocator never returns an element twice.
- `PChainMap` keeps its chains as sequences of entries; pointers inside a chain are the subject of `ChainHash`. `find` with a null result pointer only logs.
- `PQueue::try_push` and `reserve`: they only wait on `size` before a push.
- PQueue.QueueIsFifo: holds for runs in which no front stores null into `head.next`; PQueueSafety.SafeIff says from which states on that is certain.
- Fnv.HashIsFnv1: buffers with two or more bytes above 0x7f that are not one adjacent pair have no exact condition here.
- PQueue.AllPopedExact: at most 2^32 nodes linked at once, since `size` is a `uint32_t`.
- LruCache.LruCache.Init: the capacity is at least 2, since with 1 init leaves the link `last` of the one slot out of range, and at most 0x7FFF, so that the table has at most 2^16 buckets and the probe offset is exact.
- LruCache.LruCache.Put: the key is not 0, which marks a free bucket, and `overwrite` is true; `raw_key` is a value.
- LruCache.LruCache.Get: the key is not 0, for which the source would follow the invalid index of a free bucket.
- LruCache.LruCache.GetProbingBucket: the key is not 0, for the same reason.
- LruCache.LruCache.PutProbingBucket: the key is not 0 and `overwrite` is true, for the same reasons.
- Element types are unbounded integers in `QuickSort`, `SequenceRecorder`, `PQueue`; the recorder's indices do not overflow (LEN up to 2^30). `get_avg` and `get_density` are quotients of what is proved.
- `Kmp` and `QuickSort` model no search and no other sort: `quick_sort_v2` has no base case, `bin_find`, `qsort.cpp` and `pro.cpp` do not do what their names say, `insert_sort` and `merge_sort` are textbook, `heap_sort.h` and `tree.h` are incomplete.
- `dict_manager`, `dict_container`, file watching, timers, monitors, logging and path helpers: operating system and string plumbing.
- `Fnv` takes `char` to be signed, as on x86.
