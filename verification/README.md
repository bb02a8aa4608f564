# propd, verified

A Dafny model of the hard core of propd, a daemon that routes keys to storages, caches
their values for a limited time and serialises access per key, with proofs of what its
parts promise. `dafny verify dfyconfig.toml` checks all of it.

**The rank-balanced tree** (`RankTree*.dfy`, `*Links.dfy`, `LinkedTree.dfy`, `Tree*.dfy`,
`KeyOrder.dfy`). The tree of `lib/infra/tree.h` appears twice. As a value, with a path
from a subtree back to the root, it carries the reasoning about ranks, order, cost and
height. As nodes with parent pointers and edge bits, changed in place, it does what the
macros do write by write, and every method is proved to compute the value-level result.
Rank is what RB_RANK computes: null has rank 0, an edge has length 1 or 2. `TreeMap.dfy`
reads the linked tree as a map from keys to node data.

**The cache** (`CacheModel.dfy`, `CacheEntries.dfy`, `Cache.dfy`, `CleanerTiming.dfy`,
`Chain.dfy`). A class over the linked tree whose methods are proved against functions on
a map of timed entries; those functions are also what the chain of nodes and the key
operations below use. Clock readings are parameters.

**The key operations** (`Names.dfy`, `NamedMutex.dfy`, `MutexTable.dfy`, `Route.dfy`,
`RouteTable.dfy`, `Io.dfy`, `IoCached.dfy`, `IoProgress.dfy`, `AtomicRegisters.dfy`,
`IoLinear.dfy`, `IoReroute.dfy`, `RerouteHarm.dfy`, `Linearizability.dfy`).
Transition systems over any number of threads. A step is one critical section, one storage
call or one lock operation; the namespace lock is taken in a step of its own, and
unregistration reads a counter and acts on it in two steps. Storages are maps that may fail
and are unchanged then. `MutexTable` and `RouteTable` are the two tables changed in place,
as one thread sees them inside a critical section. Linearizability is a forward simulation
to an automaton in which an operation acts on the register of its key at one instant
between its call and its answer, and in which the registers of keys that come to be served
by another storage take its contents.

**The thread pool** (`TaskQueue.dfy`, `ThreadPool.dfy`, `ThreadPoolProgress.dfy`). A ring
buffer in place, and a
monitor around it in which a signal wakes at least one sleeper and sleepers may wake by
themselves. The result of a routine is a free choice of the step that finishes it.

**Codecs** (`Position.dfy`, `Hex.dfy`, `PrefixMatch.dfy`, `CStrings.dfy`). Memory under bit
fields is a
sequence of bits, least significant first.

Where code and comments disagree the model follows the code: the header comment of
`lib/infra/tree.h` (line 56) numbers null as -1 while RB_RANK uses 0; the comment at line
559 speaks of two short edges while the sibling's edge has just become long; and the
comment at lines 499-500 promises -1 for every tree that is not rank-balanced, which
RB_RANK does not keep (`RankTreeCheck`).

## Model

| member | source | states |
|---|---|---|
| `RankTreeInsert.InsertAtCorrect` | lib/infra/tree.h:527-631 | Hanging a new leaf into a null position of a tree that obeys the rank rule and running the promotion loop gives a tree that obeys it again, with exactly the new element added between what was before and after that position. |
| `RankTreeInsert.RebalanceBalanced` | lib/infra/tree.h:546-630 | The promotion loop restores the rank rule from any grown subtree, through edge shortening, promotion and both rotations. |
| `RankTreeInsert.RebalanceInorder` | lib/infra/tree.h:546-630 | The promotion loop keeps the in-order sequence. |
| `RankTreeInsert.FirstNeverRotates` | lib/infra/tree.h:532-543 | The first iteration never rotates, so the uninitialised `child` is never read. |
| `RankTreeRemove.RemoveAtCorrect` | lib/infra/tree.h:775-826 | Taking any node out of a tree that obeys the rank rule gives a tree that obeys it, whose in-order contents are the old ones minus exactly that node. |
| `RankTreeRemove.RemoveColorCorrect` | lib/infra/tree.h:644-766 | The demotion loop, with the demotion of a rank-2 leaf before it, restores the rank rule and keeps the order. |
| `RankTreeRemove.RebalanceBalanced` | lib/infra/tree.h:661-764 | Edge lengthening, demotion, double demotion, single and double rotation each hand on or end with a tree that obeys the rank rule. |
| `RankTreeRemove.RebalanceInorder` | lib/infra/tree.h:661-764 | The demotion loop keeps the in-order sequence. |
| `RankTreeRemove.SpliceFits` | lib/infra/tree.h:775-805 | The splice leaves a subtree exactly one rank too low, and the child that moves up is null or a leaf, so clearing its edge bits is right. |
| `RankTreeCost.TotalRebalancing` | lib/infra/tree.h:546-764 | Over any sequence of m inserts and d removes from the empty tree, the two rebalancing loops run at most 4m + 5d iterations in total (RB_STRICT_HST = 0). |
| `TreeRuns.Perform` | lib/infra/tree.h:527-890 | Any sequence of RB_INSERT, and of RB_FIND with RB_REMOVE, on one linked tree does exactly what it does to a map, adding a key only when it is new and removing it only when it is there; from the empty tree the rebalancing loops run at most 4 times per node inserted and 5 times per node removed in total, and from any other one at most its potential more. |
| `RankTreeCost.InsertAmortised` | lib/infra/tree.h:546-630 | Iterations of one insertion plus the growth of the potential (nodes with two short edges, plus twice those with two long ones) are at most 4. |
| `RankTreeCost.RemoveAmortised` | lib/infra/tree.h:661-764 | Iterations of one removal plus the growth of the potential are at most 5. |
| `RankTreeCost.HeightBound` | lib/infra/tree.h:52-72 | Every tree of n nodes and height h that obeys the rank rule satisfies 2^h <= (n+1)^2, the stated bound of 2 lg(n+1). |
| `RankTreeCheck.BalancedPasses` | lib/infra/tree.h:497-522 | RB_RANK returns the rank of every tree that obeys the rank rule. |
| `RankTreeCheck.CheckExact` | lib/infra/tree.h:497-522 | RB_RANK is right about a tree and all its subtrees if and only if no node has two unbalanced children on edges of equal length, nor an unbalanced child on a long edge beside a null sibling on a short one. |
| `RankTreeCheck.CheckMisses` | lib/infra/tree.h:498-501 | The promise of -1 for every other tree is false: a tree broken in both halves is reported as rank 0. |
| `RankTreeCheck.CheckMissesOneSided` | lib/infra/tree.h:498-501 | It is also false for a tree broken in one half only: on a long edge beside a null sibling it is reported as rank 1. |
| `TreeLinks.RotatedLinked` | lib/infra/tree.h:402-408 | RB_ROTATE turns the links of a subtree into those of the rotated subtree and touches three nodes only. |
| `LinkedTree.Head.Rotate` | lib/infra/tree.h:402-408 | RB_ROTATE in place: the links afterwards are the rotated ones. |
| `LinkedTree.Head.SwapChild` | lib/infra/tree.h:383-390 | RB_SWAP_CHILD puts another node into the hole that a path describes, at the root or below a parent. |
| `LinkedTree.Head.InsertColor` | lib/infra/tree.h:527-631 | RB_INSERT_COLOR on nodes with parent pointers: all links, edge bits and the root form the tree that the pure loop computes, and the loop runs as many iterations as the cost function says. |
| `LinkedTree.Head.RemoveColor` | lib/infra/tree.h:644-766 | RB_REMOVE_COLOR on nodes with parent pointers, likewise. |
| `TreeOps.InsertFinish` | lib/infra/tree.h:828-849 | RB_INSERT_FINISH links the new leaf and rebalances. |
| `TreeOps.Insert` | lib/infra/tree.h:851-871 | RB_INSERT returns the node that already has the key and changes nothing, or returns null, adds exactly the new node in key order, and keeps parent links, order and the rank rule. |
| `TreeOps.Find` | lib/infra/tree.h:873-890 | RB_FIND returns the node with the key if and only if there is one, within as many iterations as the tree is high. |
| `TreeRemove.SpliceTwo` | lib/infra/tree.h:785-805 | The pointer writes for a node with two children put its in-order successor into its place. |
| `TreeRemove.Remove` | lib/infra/tree.h:775-826 | RB_REMOVE takes exactly the given node out, keeps the order of all others, and keeps parent links, order and the rank rule. |
| `TreeWalk.Min` | lib/infra/tree.h:996-1010 | RB_MIN returns the first node in key order, or null. |
| `TreeWalk.Next` | lib/infra/tree.h:914-930 | RB_NEXT returns the in-order successor, or null. |
| `KeyOrder.StrcmpIsOrder` | lib/cache.c:71-73 | strcmp on strings without embedded terminators is a total order, as the tree requires. |
| `KeyOrder.StrcmpDecides` | lib/cache.c:71-73 | The first difference of two strings decides how they compare, and a proper prefix comes first. |
| `TreeMap.InsertEntry` | lib/infra/tree.h:851-871 | RB_INSERT as a map operation: a new key is added with its data, a present one is found and nothing changes. |
| `TreeMap.RemoveEntry` | lib/infra/tree.h:775-826 | RB_REMOVE as a map operation: exactly the key of the node goes, and the nodes around it keep their order. |
| `TreeMap.FindEntry` | lib/infra/tree.h:873-890 | RB_FIND is lookup in the map that the tree stands for. |
| `CacheEntries.SweepTree` | lib/cache.c:121-131 | Removing outdated nodes during RB_FOREACH_SAFE visits every original node once in key order, although the removals rotate, and leaves exactly the unexpired ones, in order. |
| `CacheEntries.SweepNode` | lib/infra/tree.h:1053-1056 | The successor fetched before a removal is still the next node after it. |
| `Cache.Cache.Get` | lib/cache.c:191-235 | cache_get answers as the map of entries says, and posts a notice exactly when it meets an outdated entry. |
| `Cache.Cache.Set` | lib/cache.c:237-272 | cache_set inserts a new entry with the time of its creation or updates the existing one with the time of the update, and changes no other key; how long the entry is answered for is `CacheModel.AnsweredAsLong`. |
| `Cache.Cache.Del` | lib/cache.c:274-296 | cache_del removes exactly the key and tells whether it was there. |
| `Cache.Cache.Clean` | lib/cache.c:119-132 | One pass of the cleaner turns the entries into the unexpired ones and visits every node once. |
| `Cache.Cache.constructor` | lib/cache.c:136-167 | cache_create gives an empty cache. |
| `CacheModel.CleanerInvisible` | lib/cache.c:104-134 | In every run with a monotone clock, all reads return what they would return if the cleaner never ran. |
| `CacheModel.ReadAnswered` | lib/cache.c:191-235 | Each read of a run is answered from the contents that the run has left by then. |
| `CacheModel.ReadsLastWrite` | lib/cache.c:191-272 | After any run a read returns the last value written, neither deleted nor outdated, or misses; a finite duration handed out lasts until the expiry, or is the minimum if that is longer. |
| `CacheModel.AnsweredAsLong` | lib/cache.c:239-240 | After a set of a key with any duration d and any run that does not write the key, a read hits, with the value set, if and only if less time has passed than the default for d = 0, the minimum for d below it, and d otherwise, or that is infinite; the duration handed out is what is left of it, or the minimum. |
| `CacheModel.LastWriteIs` | lib/cache.c:237-272 | The last write to a key that a run leaves behind is its last set of that key, however many other events follow. |
| `CleanerTiming.Cleaner` | lib/cache.c:104-134 | Over any pattern of notices and time-outs: which wakes sweep, that notices are ignored only within the minimum interval, and that a sweep is never later than that interval plus the time-out. |
| `CleanerTiming.SweepGap` | lib/cache.c:111-123 | Consecutive sweeps are at most min_interval + max_interval apart, and a notice-driven one at least min_interval, although every ignored notice restarts the timer. |
| `CleanerTiming.TimeoutBound` | lib/infra/timestamp.h:77-81 | The time-out, cut to milliseconds in 32 bits, is never longer than max_interval, and within a millisecond of it below 2^32 ms. |
| `CleanerTiming.TimeoutWraps` | lib/infra/timestamp.h:77-81 | For every interval, negative ones included, the time-out is its milliseconds rounded towards zero, modulo 2^32. |
| `Chain.BoundedStaleness` | lib/io.c:50-79 | A value returned k hops above the owner of the storage was the storage's value at some instant within the last D + k·M, after every run of gets, sets, deletions, sweeps and changes of the storage, for every k. |
| `Chain.FetchFresh` | lib/builtin/unix.c:141-194 | A get through the chain keeps every cache within its bound, and a value handed up with a duration may be kept for it by the node above. |
| `Chain.FetchExact` | lib/io.c:54-74 | A get returns what the highest answering cache on its way holds, or else what the storage holds; exactly the nodes passed on the way keep the answer. |
| `Chain.ReadYourWrites` | lib/io.c:108-132 | After a set through a node and any run of gets, sweeps, changes of the storage and writes to other keys, a get at that node or below returns the value written until the default duration has passed. |
| `Chain.ReadYourDeletions` | lib/io.c:134-158 | After a deletion through a node, a get at that node or below finds nothing until the key is brought back into the storage, whatever the nodes above still hold. |
| `Chain.ReadsRepeat` | lib/io.c:71-74 | After a get that the storage has answered, a get at any node it passed returns the same value until the default duration has passed, whatever gets, sweeps, changes of the storage and writes to other keys follow. |
| `Chain.WritesOwnKey` | lib/io.c:122-153 | A set or a deletion changes its own key only: the storage maps the key to the value, or no longer has it, and agrees with the one before on every other key; the nodes below have the value with the default duration, or no longer the key, and nothing else changes in any cache. |
| `Chain.OtherKeysUntouched` | lib/io.c:108-158 | Hence a get of any other key answers at every node, at any time, what it would have answered before the write. |
| `Chain.SweepInvisible` | lib/cache.c:121-131 | A sweep of one node drops exactly what is outdated there, and no get at any node from then on answers differently. |
| `Chain.ChangeSeen` | lib/io.c:71-74 | When the storage has changed by itself, a get that some cache on its way answers is as before, and any other one sees the new contents. |
| `Chain.FreshSet` | lib/cache.c:237-250 | The clamping in cache_set keeps an entry within the bound of its node. |
| `Chain.FreshHit` | lib/cache.c:206-225 | The clamping of a handed-out duration costs at most M. |
| `NamedMutex.NamedLocks` | lib/infra/named_mutex.c:79-148 | In every reachable state of any number of threads each name has at most one holder and one object with references, the one in the tree, whose counter is the number of threads waiting for, holding or releasing it; every other object belongs to one thread that has not inserted it yet; and with nobody active no object is left, so the assert at line 101 holds. |
| `NamedMutex.NoDanglingObject` | lib/infra/named_mutex.c:79-148 | No thread touches a destroyed object or unlocks a mutex it does not hold, the search in named_mutex_unlock always finds the mutex that was locked, and the assert at line 81 holds. |
| `NamedMutex.InvNext` | lib/infra/named_mutex.c:107-148 | Every step of locking and unlocking keeps the invariant behind both. |
| `MutexTable.Namespace.Enter` | lib/infra/named_mutex.c:107-119 | The first critical section, on the linked tree: the mutex of the name, new or already there, with one more reference, and no other counter changed. |
| `MutexTable.Namespace.Find` | lib/infra/named_mutex.c:125-137 | The search of named_mutex_unlock finds the mutex of the name, and fails only when the name is not in use. |
| `MutexTable.Namespace.Leave` | lib/infra/named_mutex.c:141-146 | One reference less, and the last one takes the mutex out of the tree. |
| `MutexTable.ProtocolCounts` | lib/infra/named_mutex.c:113-146 | Every step of the protocol changes the counters as these calls do, and no other step changes them. |
| `RouteTable.Table.Register` | lib/route.c:107-125 | Registration puts the new item first, or changes nothing when and only when its name is taken. |
| `RouteTable.Table.Unregister` | lib/route.c:135-157 | Unregistration removes exactly the named item, or changes nothing and reports whether the name is unknown or its item in use. |
| `RouteTable.Table.UnregisterAll` | lib/route.c:159-176 | Without a name, items go from the head on until the list is empty, which is success, or its first item is in use. |
| `RouteTable.DropIdleTail` | lib/route.c:168-171 | What is left then is a tail of the list that starts with an item in use, and every item that went was idle. |
| `RouteTable.Table.Match` | lib/route.c:178-203 | The first item in the list that serves the key is found; its counter is one higher afterwards, its name and prefixes and all other items are as before, and without such an item nothing changes. |
| `RouteTable.Table.Deref` | lib/route.c:205-208 | The counter of the item is one lower, and nothing else changes. |
| `RouteTable.ProtocolSteps` | lib/route.c:107-208 | Register, match and deref of the protocol have exactly the effect of these calls on list and counters, and match and deref record and forget the item of the thread. |
| `RouteTable.ProtocolUnregisters` | lib/route.c:135-157 | A writer of the protocol that looks for a name has the effect of one call, at the look if the name is unknown or its item busy and at the last step if the item goes, whatever threads do with the items in between. |
| `RouteTable.ProtocolUnregistersAll` | lib/route.c:159-176 | Without a name and with nobody else moving, the protocol leaves the list that the loop of calls leaves. |
| `Route.ReferenceSafety` | lib/route.c:135-208 | Over all interleavings of match, deref, register and unregister, the counter of an item is the number of operations in flight on it, and a destroyed item is in use by nobody, although deref takes no lock. |
| `Route.FinishInv` | lib/route.c:148-157 | A counter read as zero under the write lock is still zero when the item is removed. |
| `Route.InvNext` | lib/route.c:107-208 | Every step keeps counters, the list and the uniqueness of names. |
| `Route.NewestWins` | lib/route.c:107-203 | After every run of registrations, unregistrations, matches and derefs from an empty route, a match finds, of all listed items with a prefix that matches the key, the one registered last, and nothing exactly if there is none. |
| `RouteTable.AnyMatches` | lib/route.c:186-187 | The inner loop tells whether some prefix of the item matches the key. |
| `Io.Safety` | lib/io.c:45-158 | In every reachable state, with storages registered and unregistered meanwhile: at most one operation per key is in its storage call or cache update, the storage of every operation in flight is alive, and counters equal operations in flight. |
| `Io.InvNext` | lib/io.c:50-158 | Every step of the three operations keeps lock, route and operation in line. |
| `Io.FailureFromBelow` | lib/io.c:64-74 | An operation of a thread fails only when a storage call of that thread, or the creation of its mutex, has failed. |
| `IoCached.AnsweredUntilExpiry` | lib/io.c:54-74 | Once a read or a write has updated the cache, after any run without another update of that key, a read is answered with its value for exactly as long as the entry lasts, and goes to the storage from then on. |
| `IoCached.AnsweredAsStored` | lib/io.c:69-72 | From the storage call of a get or set on: whatever the threads do up to the update of the cache, and whatever but another update of the key afterwards, a read is answered with the value found or written for exactly the duration d that came from the storage - the default for d = 0 and for a set, the minimum for d below it - and goes to the storage from then on. |
| `IoCached.AskedAfterDeletion` | lib/io.c:148-153 | After a deletion has updated the cache, every read goes to the storage until the key is cached again. |
| `IoCached.SweepAndTick` | lib/cache.c:119-132 | The cleaner takes exactly the outdated entries out of the cache that the operations share, and passing time changes nothing else. |
| `IoProgress.Progress` | lib/io.c:45-79 | While anything is unfinished some thread can step, and however threads are scheduled they stop only when all is finished, after at most 15 steps per operation. |
| `IoProgress.LockHolderCan` | lib/infra/named_mutex.c:113-146 | The holder of the namespace lock never waits for a name mutex: it can always leave. |
| `IoProgress.WaitedForCan` | lib/infra/named_mutex.c:107-148 | Whoever waits for a name waits for a thread that can step, or that wants the namespace lock while the holder of that can step. |
| `IoProgress.FewSteps` | lib/io.c:45-158 | In any run, with the clock, the cleaner and registrations in between, the operations take at most 15 steps each, counting those under way at its start. |
| `IoProgress.AnyOutcome` | lib/io.c:64-74 | Nothing outside the program is restricted: any thread may call any operation, a storage call that is due may succeed or fail, with any duration, and so may the creation of a mutex. |
| `Linearizability.Linearizable` | lib/io.c:50-158 | Every interleaving of io_get, io_set and io_del by any number of threads, with storages registered and unregistered as long as that does no harm, shows its clients the calls and answers of one atomic register per key, although cache hits are read without the key lock. |
| `AtomicRegisters.OperationAlone` | lib/io.c:50-158 | What the registers promise an operation with nothing else under way: a read that is answered found exactly the value of its register, or that it is empty; a write that is done set or emptied its register and no other; no route is reported exactly for keys without a storage. |
| `Linearizability.FixedIsTame` | lib/io.c:50-158 | A route that stays as it is does no harm. |
| `Linearizability.CacheCoherent` | lib/io.c:54-74 | After every such run a live cache entry equals its register, and with no operation in flight the storages that serve the keys hold what the registers hold. |
| `Linearizability.ChangeExact` | lib/route.c:107-176 | With no operation under way, a registration or unregistration is followed by histories of the atomic registers only, in every continuation without further changes, if and only if the cache has no live entry of a rerouted key with a value other than what the new storage holds. |
| `IoReroute.AdminRel` | lib/route.c:107-176 | With operations under way, a change keeps program and registers together if none of them has chosen the old storage of a rerouted key and not yet finished with storage and cache, and the cache agrees with the new one; the registers of exactly the rerouted keys then take its contents. |
| `RerouteHarm.StaleAnswer` | lib/io.c:54-57 | Such a change that does harm: in a run of one set, one registration while nothing is under way, and one get that begins afterwards, the get returns the value of the storage that no longer serves the key, and no run of the registers has that history. |
| `IoLinear.RelNext` | lib/io.c:54-152 | Each step is no step or one step of the registers: writes act at their cache step, reads at the cache hit or the storage call. |
| `TaskQueue.PushAppends` | lib/infra/thread_pool.c:93-96 | A push into a ring of any capacity appends to the queued sequence, also across the wrap. |
| `TaskQueue.PopTakesFirst` | lib/infra/thread_pool.c:111-113 | A pop takes the first element and leaves the rest. |
| `TaskQueue.TailPosition` | lib/infra/thread_pool.c:86-118 | The tail is always `count` slots after the head, modulo the capacity. |
| `TaskQueue.TaskQueue.Push` | lib/infra/thread_pool.c:93-96 | The in-place push appends exactly its task. |
| `TaskQueue.TaskQueue.Pop` | lib/infra/thread_pool.c:111-113 | The in-place pop returns and removes exactly the oldest task. |
| `ThreadPool.FirstInFirstOut` | lib/infra/thread_pool.c:86-118 | Over every run what the workers took, followed by what is queued, is exactly what was pushed. |
| `ThreadPool.PushesSubmission` | lib/infra/thread_pool.c:219-234 | What a push puts into the queue is the task that its thread submitted last, in every run. |
| `ThreadPool.OutcomesAreReports` | lib/infra/thread_pool.c:131-137 | The outcomes after a run are those before it, overlaid by what the finished routines returned, by ticket. |
| `ThreadPool.NoLostWakeup` | lib/infra/thread_pool.c:86-118 | For any number of producers and workers, with spurious wake-ups: sleeping workers imply no more tasks than woken workers, sleeping producers no more free slots than woken producers, and with work left some awake thread can step. |
| `ThreadPoolProgress.AllTasksRun` | lib/infra/thread_pool.c:86-140 | In any run from a reachable state with at least one worker, the threads that are awake take a bounded number of steps for the submissions, whomever the signals wake, plus one per spurious wake-up; and whenever none can step all submissions have returned and every task has been run. |
| `ThreadPool.SubmitReturnsOwnResult` | lib/infra/thread_pool.c:219-242 | A synchronous submit returns the result that a worker reported when the routine of its ticket finished; the task with that ticket is the one its thread submitted, is not run again, and no later step changes its outcome. |
| `ThreadPool.InvNext` | lib/infra/thread_pool.c:86-140 | Every step of producers and workers keeps the invariant behind these, in particular that a submitter is still there when its result is written. |
| `Position.WriteThenRead` | lib/memio/position.c:47-89 | A write succeeds if and only if the field has room for the value, and a read then returns it padded with zeros, nothing cut off. |
| `Position.DisjointFields` | lib/memio/position.c:68-89 | Writing a field leaves every field with other bits as it was, even if they share bytes. |
| `Position.WriteKeepsOthers` | lib/memio/position.c:68-89 | A write changes no bit outside its field. |
| `Position.WritePlaces` | lib/memio/position.c:68-89 | Every bit of the field is the bit of the value at its distance from the lowest bit of the field, or zero behind the end of the value. |
| `Position.ReadSeesOwn` | lib/memio/position.c:47-66 | A read depends on no bit outside its field. |
| `Position.ReadNeedsRoom` | lib/memio/position.c:47-66 | A read succeeds if and only if the buffer has room for the largest value of the field. |
| `Position.MaskWriteRead` | lib/memio/position.c:35-40 | MaskRead undoes MaskWrite for values that fit. |
| `Position.ValueFits` | lib/memio/position.c:76 | The comparison with MaskMax tells exactly whether the value fits a contiguous mask. |
| `Position.LengthCovers` | lib/memio/position.c:42-45 | MaskLength bytes hold the largest value of a contiguous mask. |
| `Position.PosWrite` | lib/memio/position.c:68-89 | pos_write in place. |
| `Position.PosRead` | lib/memio/position.c:47-66 | pos_read into a buffer. |
| `Hex.RoundTrip` | lib/misc.c:146-221 | hex2mem undoes hexmem for all bytes and either case when the buffers suffice. |
| `Hex.CutShort` | lib/misc.c:184-201 | A dump cut short with room for c >= 3 bytes is exactly 2c characters: a true hex prefix, two dots and a true hex suffix that show c - 1 bytes without overlap. |
| `Hex.CutShortParsed` | lib/misc.c:208-221 | Such a dump parses to the bytes before the dots. |
| `Hex.HexCharIs` | lib/misc.c:146-148 | The digit d is character d of 0123456789ABCDEF or of 0123456789abcdef, as asked for. |
| `Hex.DumpOneCase` | lib/misc.c:146-201 | Hence a dump has letters of that case only. |
| `Hex.RunParsed` | lib/misc.c:208-221 | A run of digits is parsed up to the first other character, to its bytes if they are whole and fit, and refused otherwise. |
| `Hex.PrefixSkipped` | lib/misc.c:208-221 | 0x or 0X before a string changes nothing, except that a second prefix is refused. |
| `Hex.HexMem` | lib/misc.c:156-201 | hexmem in place: the dump and its terminator, inside the buffer, with no digit 'a' to 'f' when upper case is asked for and no 'A' to 'F' otherwise. |
| `Hex.Hex2Mem` | lib/misc.c:208-221 | hex2mem in place: it accepts exactly an even run of digits that fits, after an optional 0x, and writes their bytes and nothing behind them. |
| `PrefixMatch.Matches` | lib/misc.c:223-234 | prefix_match is true exactly for equal strings and for strings that first differ at a '*' of the prefix. |
| `PrefixMatch.Exact` | lib/misc.c:223-234 | For all strings: prefix_match says what a wildcard is meant to say, keys that start with what precedes the first '*', if and only if it is not the case that both strings agree through that '*' and first differ where the prefix has none. |
| `PrefixMatch.Meaning` | lib/misc.c:223-234 | Hence it does for every key without '*'. |
| `PrefixMatch.StarInKey` | lib/misc.c:223-234 | And it does not for the prefix "a*" and the key "a*b". |

## Left out

- Sockets, daemonising, options, signals and logging (`lib/io_server.c`, `lib/ctrl_server.c`, `lib/propd.c`, `app/`): of these only the fact that a get forwards value and duration is used, in the chain.
- Allocation failure in the cache, and thread cancellation: a cache_set that fails after a successful storage_set is ignored by the code (`lib/io.c:124-127`), so coherence needs their absence. That a mutex cannot be created is modelled.
- io_update and the registration of children (`lib/io.c:81-106`, `lib/ctrl_server.c:86-97`): they fill the cache from a storage that is not in the route yet.
- Linearizability.Linearizable: asks that changes of the route do no harm, because a cache entry outlives the storage it came from. With no operation under way that is exact (`Linearizability.ChangeExact`); with operations under way it is sufficient and not shown to be necessary. Safety and progress hold for all changes.
- The catch-all null storage (`lib/builtin/null.c:36-52`) is not a map; and a storage is taken to offer both set and del or neither, because storage_del tests `set` (`lib/storage.c:82`).
- 64-bit overflow of times and durations: times are unbounded integers, and `Chain.BoundedStaleness` asks that no reachable duration equals the infinite one.
- CleanerTiming.Cleaner: ignores lock waits and the time a sweep takes, and lets both clocks advance at the same rate.
- Chain.BoundedStaleness: hops take no time, as one get holds for all nodes at one instant.
- Position.PosWrite: memory is an array of bits rather than of bytes, so byte order within a word is fixed to least significant first.
- Pointer tagging: the two edge bits of a node are fields beside its parent pointer.
- RB_NFIND, RB_PREV, RB_INSERT_NEXT, RB_INSERT_PREV, RB_REINSERT, splay trees and augmentation hooks: unused by the program.
- Task numbers in the log, creation times and the auto-sizing and shutdown of the thread pool (`lib/infra/thread_pool.c:148-217`): bookkeeping.
- Parsing and printing of values and of string arrays, JSON layouts and linear list search: library calls and easy loops.
