# libgomp, modelled and verified

libgomp is the runtime that GCC's OpenMP programs call.  Its difficult parts are short and
dense: lock words that threads change with compare-and-swap and exchange, blocks of memory that
are handed from construct to construct while threads run arbitrarily far apart, dependence
chains that forget edges on purpose, and data structures with unusual inner loops.  This project
models those parts in Dafny and proves what they promise.

* **Protocols** are state machines.  One step is one atomic access of one thread; a run is any
  finite interleaving of such steps (`Runs`).  The mutex, the semaphore, the pointer lock, the
  dynamic and guided hand-out of iterations, the multi-word doacross slot, ordered loops, the
  team barrier with its tasks, and the chain of work shares are modelled this way, for any
  number of threads.  Sequential consistency is assumed, and a sleeping thread may wake up
  without reason at any time.
* **Code that updates in place** is a class or a method with its loops: the splay tree, the hash
  table, the depend table, the circular lists of tasks, the queue of priorities, the queue of an
  ordered loop, the static hand-out, the place loops and the cutting of a taskloop.  Each method
  is proved against a function of the old state, and the meaning of that function is proved
  beside it.
* **Both halves.**  For the protocols the results say what never happens, and beside that what always
  can: somebody is there to wake, to open, to publish or to go on, and steps lead towards an end.  No
  fairness is assumed for that; it is said of states and of single steps, for every interleaving.
* **Histories.**  Some states carry history (what was posted, taken, completed) that no step
  looks at; it only serves to state properties.

How the modules depend on each other:

| part | modules |
|---|---|
| locks | `Mutex`, `Semaphore`, `PtrLock` |
| loops | `LoopCounts` (iterations and their values), `LoopRanges` (ranges that run a loop), `IterStatic`, `IterDynamic`, `IterGuided`, `Ordered`, `OrderedProgress`, `OrderedQueue`, `Taskloop` |
| doacross | `DoacrossWords`, `DoacrossPacked`, and the slot of an iteration in `IterStatic` |
| work shares | `WorkShareSteps` (model and invariant), `WorkShareBlocks`, `WorkShareThreads`, `WorkShareCounts`, `WorkShare` (what never happens), `WorkShareProgress` (what always can) |
| tasks | `TaskGraph` (meaning), `DependChain` and `DependTable` (implementation on values), `DependLinks` and `DependHash` (in memory), `TeamBarrier` and `TeamProgress`, `PriorityOrder` and `PriorityList` (one priority, on values and in memory), `PriorityQueue`, `PriorityTree` |
| data structures | `SplayShape`, `SplayTree`, `HtabMod`, `Primes`, `HtabPrimes`, `HtabProbe`, `HtabCells`, `Htab` |
| threads on places | `Places` |
| shared facts | `Runs`, `Options`, `Collections`, `Arith`, `Words` (64-bit words, long and unsigned long long), `Bits`, `Lex` |

These properties turned out not to hold of the code on all inputs.  Each has a lemma with a
concrete input and a lemma with the exact condition, which can be checked beforehand:

* packed doacross waits fail after the last post of a loop whose dimensions fill all 64 bits,
  because the stored value plus one wraps to 0 (`DoacrossPacked.AllPostsAreRight`,
  `DoacrossPacked.LastPostCanWrap`);
* the count of iterations of the static hand-out and of a taskloop is wrong when rounding up
  leaves the words (`LoopCounts.CountIsTrips`, `LoopCounts.LongCountCanVanish`,
  `LoopCounts.UllCountCanVanish`);
* a share whose end leaves the words runs no iteration (`LoopCounts.RangeRuns`,
  `IterStatic.LastShareCanVanish`);
* the chunked static hand-out repeats or loses iterations when a product wraps
  (`IterStatic.ComputedIsIdeal`, `IterStatic.HugeChunkRepeatsIterations`);
* the lock-free dynamic hand-out does not give what the locked one gives when a signed loop is
  wider than a long, or when the chunk of an unsigned loop downward has wrapped to 0
  (`IterDynamic.LockFreeRefinesLocked`; `IterDynamic.WideLoopDiffers` and
  `IterDynamic.VanishedChunkDiffers` are the inputs);
* the dynamic hand-out of a loop that is too wide, or whose chunk does not go forward, does not
  give consecutive ranges of at most a chunk (`IterDynamic.LockedRangesFollow`,
  `IterDynamic.ChunkCanVanish`);
* the chunk of the dynamic hand-out is not what was asked for when the product wraps, and when it is
  then not a multiple of the step the hand-out runs values that are not iterations
  (`IterDynamic.ChunkIsExact`, `IterDynamic.HandOutRunsTheLoop`; the input is
  `IterDynamic.WrappedChunkRunsOthers`);
* the whole steps left of a guided loop are wrong when a signed loop is too wide
  (`IterGuided.StepsLeftAre`), and then a chunk can pass the end (`IterGuided.CutsWellExactly` for
  one team, `IterGuided.EveryTeamCutsWell` for all; the input is `IterGuided.WideLoopGoesAstray`);
* a guided chunk is smaller than the share of a thread when rounding up wraps and the chunk size
  does not cover for it (`IterGuided.ChunkIsLargeEnough`, `IterGuided.ShareCanVanish`);
* the last iteration of a taskloop that is cut into several tasks is lost when the end of the last
  task leaves the words (`Taskloop.TasksRunTheLoop`, `Taskloop.LastTaskIsLost`);
* with more threads than places, the threads on a place do not have consecutive numbers, as OpenMP 4.5
  section 2.5.2 asks, unless the places divide the threads (`Places.BlocksIfEven`,
  `Places.LeftOverComesBack`);
* a probe of the hash table goes to another slot than the next one when index and stride leave
  32 bits, which happens in the last row of the table of primes (`Htab.NextIndexIsExact`,
  `Htab.LastRowGoesAstray`);
* awaited tasks do not stay first among the children of a task, because last_parent_depends_on is
  lost when the task it points to is started from between an awaited and a WAITING one
  (`PriorityOrder.OrderIsKept`, `PriorityOrder.LosingMisorders`, `PriorityOrder.AwaitedComesSecond`);
* a double rotation of the splay tree can leave the search path as long as it was, so its
  termination needs a second component (`SplayShape.WhenLengthStays`, `SplayShape.LengthCanStay`).

In this version of the source `GOMP_task` ends at a guard before its body (task.c:301-314); the
model is of the code behind the guard.

## Model

| member | source | states |
|---|---|---|
| Mutex.MutexIsSafe | config/linux/mutex.c:35-64 | In every state of every run at most one thread holds the lock, the word is 0 exactly when nobody does, and while somebody sleeps the word is -1, or a wake is on its way, or an awake thread is about to store -1. |
| Mutex.FreeLockHasAnAwakeThread | config/linux/mutex.h:51-66 | When the lock is free and a thread sleeps, another thread is about to wake somebody or about to take the lock as contended. |
| Mutex.StepKeepsExclusive | config/linux/mutex.h:51-66 | Mutual exclusion is inductive: each single step keeps it. |
| Mutex.StepForgetsNobody | config/linux/mutex.c:35-64 | No step leaves a sleeper that nobody is going to wake. |
| Mutex.FreeLockIsTaken | config/linux/mutex.c:35-64 | A thread that wants a free lock can always go on, and each of its steps takes the lock or brings it nearer. |
| Mutex.WaiterCanSleep | config/linux/mutex.c:35-64 | Beside a lock that is held with the word at -1, a thread that wants it can go to sleep. |
| Semaphore.SemaphoreIsSafe | config/linux/sem.c:32-84 | In every run the low 31 bits are initial + posts - waits (modulo 2^31), and no sleeper is forgotten: the flag is set with count 0, a wake is pending, or an awake thread is in the second loop. |
| Semaphore.EveryWaitHasAUnit | config/linux/sem.h:56-87 | While fewer than 2^31 units were ever given, the equation is exact, so no wait completes without a unit. |
| Semaphore.UnitsReachSleepers | config/linux/sem.c:32-84 | When units are left and somebody sleeps, a wake is pending or an awake thread will take a unit and pass the wake on. |
| Semaphore.StepConserves | config/linux/sem.h:56-87 | Each atomic operation on the word changes count and history alike. |
| Semaphore.UnitCanBeTaken | config/linux/sem.c:32-84 | While there are units, a waiting thread has a step that takes one or brings it nearer. |
| Semaphore.WaiterCanSleep | config/linux/sem.c:32-84 | While there are none and the flag is set, it can go to sleep. |
| PtrLock.PtrLockIsSafe | config/linux/ptrlock.h:48-70 | At most one thread is ever told to prepare the pointer, no get returns 0, 1 or 2, all gets return what the word holds, and no sleeper is forgotten. |
| PtrLock.PointerIsStable | config/linux/ptrlock.c:34-70 | Once the pointer is there it never changes, so all gets of a run agree. |
| PtrLock.PointerIsGot | config/linux/ptrlock.c:34-70 | Once the pointer is there, a thread that asks for it can always go on, and each of its steps gets it or brings it nearer. |
| PtrLock.SomebodyPrepares | config/linux/ptrlock.h:48-70 | And until it is there, somebody prepares it. |
| PtrLock.WaiterCanSleep | config/linux/ptrlock.c:34-70 | While the word is 2, a thread that asks for the pointer can go to sleep. |
| DoacrossWords.NeverPassesEarly | ordered.c:463-485 | In every interleaving of one posting thread and any number of waiters, a waiter for vector v that passes does so after the beginning of a post of some vector at or beyond v, although the words it read may come from different posts. |
| DoacrossWords.QuietSlotHoldsLatest | ordered.c:394-400 | Between posts the slot holds exactly the vector last posted. |
| DoacrossWords.Scan | ordered.c:463-485 | One scan of a quiet slot, outermost word first, passes if and only if the vector waited for is lexicographically at or before the slot. |
| DoacrossWords.QuietReader | ordered.c:463-485 | In the protocol, a waiter that starts over while nobody writes is through after one scan at most, and has passed exactly if the slot is at or beyond its vector. |
| DoacrossWords.WriterGoesOn | ordered.c:394-400 | A post that has begun can always store its next word. |
| DoacrossPacked.ComputeWidths | ordered.c:274-296 | The first loop finds the bits of each dimension and their sum, and gives up exactly when the sum exceeds 64. |
| DoacrossPacked.ComputeLayout | ordered.c:262-335 | There is no doacross exactly when some count is 0; the packed form is chosen exactly when the widths fit in 64 bits, and each shift is the width of all inner dimensions. |
| DoacrossPacked.Pack | ordered.c:378-391 | Shifting and or-ing the components loses no bit and lets no fields overlap: the result is the weighted sum of the components, below 2^64. |
| DoacrossPacked.Post | ordered.c:378-391 | The stored word is the packed value plus one, modulo 2^64. |
| DoacrossPacked.Test | ordered.c:440-461 | A test passes exactly when the packed value of the sink is below the stored word. |
| DoacrossPacked.ValueIsMonotone | ordered.c:274-296 | On vectors within the counts, packing is strictly monotone for the lexicographic order. |
| DoacrossPacked.ValueOrder | ordered.c:325-332 | The order of packed values is the lexicographic order, both ways. |
| DoacrossPacked.PackedTestIsExact | ordered.c:440-461 | The packed test passes if and only if the sink is at or before the vector posted and that vector is not the one whose fields are all ones in a full 64-bit word. |
| DoacrossPacked.WrapsExactlyAtAllOnes | ordered.c:378-391 | Value plus one wraps if and only if all fields are all ones and the widths add up to 64. |
| DoacrossPacked.LastPostCanWrap | ordered.c:378-391 | A concrete loop of two dimensions of 2^32 iterations whose last post lets no waiter pass. |
| DoacrossPacked.AllPostsAreRight | ordered.c:440-461 | All tests after all posts of a loop are right if and only if its dimensions do not fill the 64 bits with powers of two of at least two. |
| LoopCounts.CountIsTrips | iter.c:70-72 | The computed number of iterations, in wrapping longs or unsigned words, up or down, is the number that the loop has if and only if rounding up fits (or a signed loop goes by ones). |
| LoopCounts.LongCountCanVanish | iter.c:70-72 | A concrete signed loop of 2^62 iterations of which none is counted. |
| LoopCounts.UllCountCanVanish | iter_ull.c:69-73 | A concrete unsigned loop, which reaches its end exactly, of which no iteration is counted. |
| LoopCounts.ValueIs | iter_ull.c:95-97 | The value of an iteration, computed modulo 2^64 with an increment that may stand for a negative one, is exact if it is a word at all. |
| LoopCounts.RangeRuns | iter.c:94-96 | A share given by its start and end values runs as many iterations as it has if and only if its end is a word. |
| IterStatic.SharesPartition | iter.c:61-139 | Every iteration is in exactly one share over all team ids and trips, and it is the share of the thread whose slot the doacross wait computes by its own formula. |
| IterStatic.BlocksAreEven | iter.c:61-103 | Without a chunk size each thread gets floor or ceiling of n / T iterations, earlier threads earlier ones and no fewer. |
| IterStatic.ExactlyOneLast | iter.c:61-139 | In a loop with iterations exactly one thread, on one trip, gets the last one. |
| IterStatic.SlotNeverDividesByZero | ordered.c:420-432 | With fewer iterations than threads every iteration is below the boundary, so the division by q = 0 is never reached. |
| IterStatic.ComputedIsIdeal | iter.c:105-139 | The chunked shares as computed with wrapping start and end are the intended ones on every call that is made, if and only if the end of the last chunk is a word and no first call past the end wraps back into the loop. |
| IterStatic.HugeChunkRepeatsIterations | iter.c:116-125 | A concrete loop in which the product wraps and iterations are given out twice. |
| IterStatic.StaticIsRight | iter.c:61-139 | When the count and the products fit, every call of a team of several threads gives the share it should, and the thread runs exactly those iterations if and only if the end of the share is a word. |
| IterStatic.LastShareCanVanish | iter.c:94-96 | A concrete loop with the right count whose last thread runs nothing. |
| IterStatic.Worker.StaticNext | iter.c:38-140 | What one call returns, for signed and unsigned loops as computed, and how the trip counter moves: a range exactly when the share of this trip is not empty, -1 recorded exactly with the last counted iteration. |
| IterDynamic.LockFreeRefinesLocked | iter.c:184-253 | For every signed or unsigned loop that is set up, with any chunk, and every interleaving: the ranges handed out are those of the locked form in the same order if and only if the fast form is not used, the loop is empty, or its width fits and its chunk has not vanished; then nobody is told that nothing is left before the locked form is at the end. |
| IterDynamic.InitGuards | loop.c:43-79 | For any product of chunk size and increment, the overflow guard leaves room for nthreads + 1 chunks behind the end. |
| IterDynamic.WordNeverWraps | iter.c:195-220 | In the fast form the word stays between the start of the loop and nthreads + 1 chunks behind its end, which is still a word, although each thread may add once after the end. |
| IterDynamic.ChunkIsExact | loop_ull.c:49-51 | The chunk, computed modulo 2^64, is chunk size times step if and only if that product fits. |
| IterDynamic.LockedRangesFollow | iter.c:147-177 | The locked form gives consecutive ranges in the direction of the loop, none empty and none longer than a chunk, if and only if the loop is empty, or the chunk goes forward and the width of the loop fits. |
| IterDynamic.HandOutRunsTheLoop | iter_ull.c:145-179 | A complete hand-out of a loop that fits runs each iteration exactly once and nothing else, if and only if the chunk is a multiple of the step or the first range is the whole loop. |
| IterDynamic.NextIs | iter.c:147-177 | After any number of calls the hand-out of such a loop is that many chunks on, or at the end. |
| IterDynamic.WrappedChunkRunsOthers | loop_ull.c:49-51 | A concrete loop by threes whose chunk wraps to 2; its hand-out is complete after 50 calls and has not run the loop. |
| IterDynamic.LockedTakesAll | iter.c:155-170 | Where fast and locked form disagree, the locked form takes the whole loop at once. |
| IterDynamic.WideLoopDiffers | iter.c:155-170 | A concrete loop wider than a long, of which the fast form takes one iteration and the locked form all. |
| IterDynamic.VanishedChunkDiffers | iter_ull.c:145-179 | A concrete unsigned loop downward with chunk 0, of which the fast form takes an empty range and the locked form everything. |
| IterDynamic.ChunkCanVanish | loop_ull.c:49-51 | A concrete unsigned loop whose chunk is 0, so that the hand-out never moves. |
| IterDynamic.LongChunkCanVanish | loop.c:50-51 | The same for a signed loop. |
| IterDynamic.FastKeepsInv | iter.c:195-220 | A fetch-and-add keeps the invariant of fast runs, also when the thread is told that nothing is left. |
| IterDynamic.SlowKeepsInv | iter.c:222-253 | A turn of the compare-and-swap loop keeps that of slow runs, for any chunk and width, also when the attempt failed with a chunk already cut. |
| IterDynamic.HandOutEnds | iter.c:184-253 | In a loop that fits and whose chunk goes forward, a thread that was not told that nothing is left can always go on, and every step of every thread, failed attempts included, brings the hand-out nearer to its end. |
| IterGuided.GuidedRefinesLocked | iter.c:292-332 | In every interleaving the chunks are consecutive, each what the locked form gives at that point, and whoever is told that nothing is left finds next at the end; in a loop that is cut well each goes forward inside the loop, by whole steps unless it ends the loop. |
| IterGuided.CutsWellExactly | iter.c:259-290 | A team's chunks do so with every chunk size and in every interleaving if and only if the steps left are right, or no step fits into what the width of the loop lacks to 2^64, or the team is one thread and whole steps do. |
| IterGuided.EveryTeamCutsWell | iter.c:259-290 | They do so in every team and with every chunk size if and only if the steps left are right or no step fits into that. |
| IterGuided.GuidedRunsTheLoop | iter.c:292-332 | Chunks that have reached the end of such a loop have run each iteration exactly once and nothing else, in every interleaving. |
| IterGuided.ChunksAreShares | iter.c:274-290 | Each chunk of a run has at most the steps that its share of what was left, or the chunk size, asks for; and exactly so many, or all that were left, if rounding up the share does not wrap. |
| IterGuided.HandOutEnds | iter.c:292-332 | In a loop that is cut well a thread that was not told that nothing is left can always go on, and every step of every thread brings the hand-out nearer to its end. |
| IterGuided.ChunkMovesOn | iter.c:259-290 | When the steps left are right, a chunk moves on in the direction of the loop, by whole steps unless it is the last, and not beyond the end. |
| IterGuided.ChunkIsLargeEnough | iter.c:259-290 | A chunk has at least the chunk size, and at least its share of the steps left if and only if rounding up does not wrap or the chunk size covers for it. |
| IterGuided.ChunkIsSmallEnough | iter.c:274-290 | And no more than the larger of the two; it has the chunk size alone when the share was lost. |
| IterGuided.ShareIsLeast | iter.c:276 | The share is the least number of steps that gives the team all that are left. |
| IterGuided.StepsLeftAre | iter.c:274-275 | The whole steps left, a wrapped difference divided as a long or as unsigned words, are right if and only if the width fits or the loop goes by ones. |
| IterGuided.StepsAreExact | iter_ull.c:271-291 | Whole steps that do not pass the end are computed exactly, in both directions. |
| IterGuided.WideLoopGoesAstray | iter.c:274-281 | A concrete loop too wide for a long whose first chunk ends one behind the end of the loop. |
| IterGuided.ShareCanVanish | iter_ull.c:267-291 | A concrete loop of 2^64 - 1 steps of which four threads get chunks of one step instead of a quarter. |
| IterGuided.TakenAtOnce | iter.c:274-281 | A loop too wide for a long that is cut well nevertheless is taken as a whole by the first chunk. |
| LoopRanges.RangeOf | iter.c:259-332 | Every position that consecutive forward ranges have passed lies in exactly one of them. |
| LoopRanges.WholeStepsRunTheLoop | iter.c:147-332 | Consecutive ranges that go forward by whole steps from the start of a loop to its end run each iteration exactly once and nothing else. |
| TaskGraph.DependOrderIsComplete | task.c:171-283 | For any sequence of siblings created and finished: while an earlier task is unfinished, each later one that names the same address, one of the two writing it, waits for a chain of tasks that leads back to the earlier one, so its count is not 0. |
| TaskGraph.EdgesJoinConflicts | task.c:171-283 | Over all histories every edge leads from an earlier to a later task that conflict: readers of an address do not wait for each other. |
| TaskGraph.ReadyIfNoConflict | task.c:171-283 | Over all histories an unfinished task is free to run if and only if it conflicts with no earlier unfinished one. |
| TaskGraph.AncestorsAreConflictPaths | task.c:171-283 | It waits for exactly the tasks that a chain of conflicts leads from. |
| TaskGraph.NewEdgesConflict | task.c:207-251 | A new task gets edges only from tasks that it conflicts with. |
| DependTable.ConflictIsInClauses | task.c:171-206 | Two tasks conflict if and only if a clause of one and a clause of the other name the same address and not both are in clauses. |
| TaskGraph.InvHolds | task.c:171-283 | The invariant behind it, over all histories: hidden writers and readers are ancestors of the one live writer. |
| TaskGraph.NewTaskWaits | task.c:194-281 | A new task reaches every unfinished task that it conflicts with through the edges it is given. |
| TaskGraph.CreateKeepsInv | task.c:171-283 | Creating a task keeps the invariant. |
| TaskGraph.FinishKeepsInv | task.c:1021-1072 | Finishing a task that waits for nobody keeps it. |
| TaskGraph.AncestorSurvives | task.c:1057-1072 | Finishing such a task breaks no path between two others. |
| TaskGraph.SomebodyIsReady | task.c:1057-1129 | While tasks are unfinished some task waits for nobody. |
| DependChain.NewChainMeaning | task.c:194-281 | Linking a new entry and moving the old writer behind the live entries means adding the task to the uses of the address. |
| DependChain.NewChainOk | task.c:194-281 | It keeps live entries before redundant ones, one live writer, and each task once. |
| DependChain.UnlinkMeaning | task.c:1021-1047 | Unlinking an entry means removing the task. |
| DependChain.UnlinkOk | task.c:1021-1047 | It keeps the order and uniqueness of entries. |
| DependChain.MeaningTasks | task.c:194-281 | The tasks of a chain are exactly the tasks of its meaning. |
| DependTable.WalkAdds | task.c:222-262 | Those edges come from exactly the direct predecessors, each once. |
| DependLinks.List.Walk | task.c:207-251 | The walk along the linked entries gives an edge from each live one that conflicts, and ends with the last live one and the one that writes. |
| DependLinks.List.Add | task.c:252-281 | Linking the new head, moving the old writer behind the live entries and marking it gives exactly the chain that DependChain.NewChain says, with all next and prev links right. |
| DependLinks.List.Unlink | task.c:1027-1046 | Unlinking an entry by its own links takes exactly that entry out, at the head of the chain or inside. |
| DependLinks.MoveBehind | task.c:268-280 | The relinking of an inner entry behind a later one. |
| DependTable.Release | task.c:1057-1129 | Exactly the dependers are counted down by one, and those that reach 0 are returned in order. |
| DependTable.ReadyAre | task.c:1063-1123 | The tasks so released are exactly those that waited for the finished task alone, each once. |
| DependHash.Slots.Link | task.c:194-281 | Linking a new entry changes the chain of its address as DependChain.NewChain says, gives the edges of its live entries, and leaves the links of all other addresses alone. |
| DependHash.Slots.Unlink | task.c:1027-1046 | An entry, wherever it is linked, leaves its own chain by its own links and no other chain changes. |
| DependHash.BuildEdges | task.c:194-281 | The loop over all clauses of a task leaves linked chains, dependers vectors and a count that represent the graph with the new task. |
| DependHash.UnlinkEntries | task.c:1021-1047 | Every entry of the finished task is unlinked by its own links and nothing else changes. |
| DependHash.Table.HandleDepend | task.c:171-283 | After the call the table with its linked entries represents TaskGraph.Create of what it represented before, duplicate addresses included. |
| DependHash.Table.Finished | task.c:1021-1129 | After the call it represents TaskGraph.Finish, and the tasks returned are exactly those that became ready, each once. |
| TeamBarrier.AdvancesOnlyWhenDone | config/linux/bar.c:80-122 | The generation advances by one, and only when every thread has arrived and no explicit task is unfinished, blocked tasks that task_count leaves out included. |
| TeamBarrier.BarrierSeparates | config/linux/bar.h:132-166 | No thread is past a barrier while another is still before it, or while a task created before it is unfinished. |
| TeamProgress.SomebodyOpens | config/linux/bar.c:80-122 | In every state, once all have arrived somebody is closing the barrier or has set BAR_WAITING_FOR_TASK, and if that is set and no task is left somebody is about to open it. |
| TeamProgress.NoTaskIsForgotten | task.c:1211-1330 | Whenever nobody holds the lock BAR_TASK_PENDING is set exactly if a task is queued, and every task that waits for nobody is queued or in a thread's hands. |
| TeamProgress.SomebodyMoves | config/linux/bar.c:80-122 | Once all threads have left user code for the barrier, some thread has a step that changes something and creates no task. |
| TeamProgress.StepGetsNearer | task.c:1211-1330 | Every such step opens the barrier or brings it nearer: fewer edges, queued tasks and work in hand, or the same and fewer steps until all wait. |
| TeamProgress.StepKeepsLive | task.c:1057-1144 | Every step of every thread keeps the invariant behind these. |
| TeamBarrier.CounterMayWrap | config/linux/bar.c:107-121 | The tests of a thread in the barrier for the next generation give the same answer when the counter is kept modulo any m above 1. |
| TeamBarrier.ZeroMeansNone | task.c:1063-1123 | While any task is unfinished, blocked or not, some task is counted. |
| TeamBarrier.SomeReady | task.c:171-283 | Edges lead to earlier tasks, so unfinished tasks include one that waits for nobody. |
| TeamBarrier.StepKeepsInv | task.c:1211-1330 | Every step of every thread keeps the invariant. |
| TeamBarrier.StepAdvances | config/linux/bar.c:80-122 | The only steps that advance the generation do so by one and with task_count 0. |
| WorkShare.NoUseAfterFree | work.c:168-297 | However far apart threads are and however constructs end, a thread only uses as a work share the block of its construct or of the one before, allocated and not freed, and only uses as list elements blocks that are on that list. |
| WorkShare.OneInitialiser | work.c:168-200 | At most one thread allocates and initialises a block, at most one frees one, and its compare-and-swap never fails. |
| WorkShare.BlocksArePartitioned | work.c:38-161 | Every block serves one construct, or is once on one of the two lists, or is being moved, and only one of these; so none is freed twice. |
| WorkShare.BlocksAreFreed | work.c:205-297 | Once all threads have completed a construct, the block of the one before is free or being freed. |
| WorkShareProgress.SomebodyMoves | work.c:168-297 | In every state of every run some thread can go on: nobody waits for a block that nobody sets, or at a barrier that nobody releases. |
| WorkShareProgress.EveryStepGoesOn | work.c:168-297 | Whenever a step changes where a thread is, it is one construct further or nearer to the next one; no step leads back. |
| WorkShareProgress.GrowsOnlyWhenShort | work.c:38-87 | New memory is taken only if no block is left to allocate and nothing was behind the head of the free list. |
| WorkShare.StepKeepsInv | work.c:38-297 | Every access to shared memory by any thread keeps the invariant. |
| WorkShareCounts.LastToComplete | work.c:283-295 | When all others have completed the construct that a thread is in, the block of the one before is the only one left to free and is in nobody's hands. |
| WorkShareCounts.CountReached | work.c:283-295 | threads_completed reaches the number of threads exactly when all others have completed the construct. |
| SplayShape.DoubleRotationDecreases | splay-tree.c:75-129 | Each turn of the loop decreases (length of the search path, whether its first two turns agree) lexicographically. |
| SplayShape.WhenLengthStays | splay-tree.c:75-129 | Exactly when a double rotation leaves the search path as long as it was. |
| SplayShape.LengthCanStay | splay-tree.c:75-129 | A concrete tree of three nodes and a key for which it does. |
| SplayShape.SplayKeeps | splay-tree.c:44-130 | Splaying keeps the in-order sequence of nodes and the search-tree order. |
| SplayShape.SplayFinds | splay-tree.c:70-130 | Afterwards the root has the key, or is an in-order neighbour of the place where it would be. |
| SplayShape.NearestIsMatch | splay-tree.c:206-214 | Then the key is in the tree if and only if it is at the root. |
| SplayShape.RootedKeeps | splay-tree.c:134-165 | Putting a new node at the root adds exactly that key to the map and keeps the order. |
| SplayShape.RemovedKeeps | splay-tree.c:170-200 | Hanging the right subtree under the last node of the left one removes exactly the key of the root. |
| SplayTree.RotateLeft | splay-tree.c:44-55 | The pointer writes perform the rotation. |
| SplayTree.RotateRight | splay-tree.c:57-68 | Likewise for the mirror image. |
| SplayTree.DoubleRotation | splay-tree.c:92-128 | In all four cases the lower edge turns first, then the upper one. |
| SplayTree.Turn | splay-tree.c:75-129 | One turn of the loop: it ends with the splayed tree, or lifts a grandchild. |
| SplayTree.LinkAtRoot | splay-tree.c:145-165 | The links of an inserted node make it the root above both parts. |
| SplayTree.JoinChildren | splay-tree.c:178-200 | The children of a removed root are joined into one tree. |
| SplayTree.SplayTree.Splay | splay-tree.c:70-130 | The loop terminates with the splayed tree: same nodes, same order, nearest node at the root. |
| SplayTree.SplayTree.Lookup | splay-tree.c:205-214 | Returns the node of the key if there is one, and the map does not change. |
| SplayTree.SplayTree.Insert | splay-tree.c:134-165 | Adds the node to the map; fails exactly on a duplicate key. |
| SplayTree.SplayTree.Remove | splay-tree.c:170-200 | Removes the key from the map and nothing else; a missing key is no error. |
| HtabMod.Mod1IsMod | hashtab.h:186-209 | For every 32-bit x and every multiplicative inverse within its bounds, the multiplications, shifts and wrapping subtractions give x % y. |
| HtabMod.EveryRowIsOk | hashtab.h:109-141 | Every row of the table holds such inverses for its prime and for its prime minus two. |
| HtabMod.TableMods | hashtab.h:211-225 | So both remainders are right for every row, and the stride lies between 1 and prime - 2. |
| HtabMod.HigherPrimeIndex | hashtab.h:146-166 | The binary search finds the first row that is large enough. |
| HtabPrimes.RowsArePrime | hashtab.h:109-141 | The size in every row but the last, which is not used for probing, is prime. |
| Primes.TrialDivision | hashtab.h:109-141 | An odd number is prime if no odd number up to its root divides it; so are the small sizes shown to be prime. |
| Primes.Pocklington | hashtab.h:109-141 | And the large ones: a number p is prime if some prime factors of p - 1 exceed its root together, and there is a witness whose order modulo any divisor of p is a multiple of them. |
| HtabProbe.ProbesVisitAll | hashtab.h:254-280 | For a prime size the probes of any hash value visit every slot. |
| HtabProbe.ProbesDiffer | hashtab.h:254-280 | The first size probes are at different slots. |
| HtabProbe.NextProbe | hashtab.h:270-272 | Adding the stride and subtracting the size at most once gives the next probe. |
| HtabCells.NotThere | hashtab.h:327-354 | A search that meets an empty slot has shown that the key is not in the table. |
| HtabCells.SearchEnds | hashtab.h:327-354 | While a slot is empty, a search ends within size probes. |
| HtabCells.StoreKeepsGood | hashtab.h:363-424 | Storing an entry at a slot of its path not behind an empty one keeps all entries findable and adds exactly its key. |
| HtabCells.ReplaceKeepsGood | hashtab.h:363-424 | So does replacing the entry of the same key. |
| HtabCells.ClearKeepsGood | hashtab.h:430-439 | Marking a slot deleted removes exactly its key and keeps the others findable. |
| Htab.Table.constructor | hashtab.h:227-252 | A new table is empty and has the least size that is at least the requested one. |
| Htab.Table.Find | hashtab.h:324-354 | Returns the entry of the key if and only if there is one. |
| Htab.Table.Expand | hashtab.h:282-322 | Keeps the map, drops all deleted marks, and leaves the table at most half full; its size is the least for twice the live entries when it was too full or too empty for them, and stays otherwise. |
| Htab.MoveAll | hashtab.h:308-318 | The loop over the old entries rebuilds the same map. |
| Htab.FindEmptySlot | hashtab.h:254-280 | Ends at an empty slot on the probe path, with no empty slot before it. |
| Htab.NewRowFits | hashtab.h:296-306 | The row chosen for the new table exists and has room for twice the live entries. |
| Htab.NextIndexIsExact | hashtab.h:270-272 | A step of a probe loop goes to the next slot if and only if the sum of index and stride is a 32-bit word. |
| Htab.LastRowGoesAstray | hashtab.h:270-272 | A concrete step in the last row that goes to another slot. |
| Htab.Table.Scan | hashtab.h:380-409 | The probe loop ends at the key or at an empty slot, and remembers the first deleted slot on the way. |
| Htab.Table.FindSlot | hashtab.h:356-424 | Returns the slot of the key; without insertion, nothing if it is absent; with insertion, a slot where storing it keeps the table valid. The table is rebuilt exactly when an insertion finds it three quarters used. |
| Htab.Table.ClaimSlot | hashtab.h:411-424 | A deleted slot is preferred over the empty one, and the counters stay right. |
| Htab.Table.ClearSlot | hashtab.h:426-439 | Removes exactly the key of that slot. |
| Htab.Table.Put | hashtab.h:356-424 | Finding a slot and storing there updates the map at one key. |
| Htab.Table.Remove | hashtab.h:356-439 | Finding and clearing a slot removes one key from the map. |
| Ordered.RegionsAreInOrder | ordered.c:194-226 | In every run of a team of at least two threads, at most one thread is in its ordered region, its chunk comes before those of all queued threads, and no region of a later chunk was entered before. |
| Ordered.LogIsSorted | ordered.c:194-226 | Ordered regions are entered in iteration order. |
| Ordered.OneToken | ordered.c:38-146 | The queue lists exactly the threads with unfinished chunks, in iteration order, and the head, nobody else, has the one token: its semaphore, ordered_owner, or its hands. |
| Ordered.ChunksAreConsecutive | loop.c:224-247 | Chunks are neither lost nor handed out twice between hand-out and queue. |
| OrderedProgress.NoChunkIsLost | loop.c:224-247 | No more chunks are handed out than there are, a thread is told that there are no more only when all have been, and when all threads are finished all chunks are done. |
| OrderedProgress.EachChunkOnce | ordered.c:69-146 | Then each chunk was worked off and passed on exactly once. |
| OrderedProgress.SomebodyMoves | ordered.c:38-226 | While a thread is not finished, some thread can go on. |
| OrderedProgress.StepGetsNearer | ordered.c:38-226 | Every step but the start of another region brings the team nearer to its end. |
| Ordered.StepKeepsInv | ordered.c:38-226 | Every step keeps the invariant. |
| OrderedQueue.WorkShare.First | ordered.c:38-65 | The circular array gets the thread at its end, and its semaphore is posted exactly if the queue was empty. |
| OrderedQueue.WorkShare.Last | ordered.c:69-99 | The head leaves, and the next head, if any, is released once. |
| OrderedQueue.WorkShare.Next | ordered.c:104-146 | The head goes to the end, with wrap-around also when the array is full, and the new head is released once. |
| OrderedQueue.Join | ordered.c:38-65 | In every state of the protocol of Ordered, a thread that joins meets the preconditions of First, and the call performs exactly the step of the protocol. |
| OrderedQueue.Leave | ordered.c:69-99 | Likewise for Last, which performs the two steps of disowning and passing on. |
| OrderedQueue.GoOn | ordered.c:104-146 | Likewise for Next. |
| OrderedQueue.PassedOnInTwoSteps | ordered.c:69-146 | A thread that disowns is the head of the queue, and what Leave and GoOn reach are the two steps of the protocol. |
| OrderedQueue.JoinerMayCall | ordered.c:38-65 | A thread that joins is not queued, and the array has room for it. |
| PriorityOrder.OrderIsKept | task.c:895-940 | Over every history of a task's children (created, freed to run, started, finished, waited for), the list of one priority keeps awaited WAITING tasks first, then other WAITING tasks, then TIED ones, with last_parent_depends_on at the last awaited one, if and only if no start is of that task while others are before it and a WAITING one is behind it. |
| PriorityOrder.ApplyKeepsGood | priority_queue.c:95-124 | From such a list each single operation gives such a list, if and only if it is not such a start. |
| PriorityOrder.LosingMisorders | task.c:912-940 | After such a start the next free task that nobody waits for is put before an awaited one. |
| PriorityOrder.AwaitedComesSecond | task.c:912-940 | A concrete history in which that happens. |
| PriorityOrder.ApplyKeepsSane | task.c:895-940 | In any case no operation puts a WAITING task behind a TIED one, and last_parent_depends_on is null or at an awaited WAITING task. |
| PriorityOrder.HeadSuffices | priority_queue.h:371-408 | So after every history some task is WAITING if and only if the head is. |
| PriorityOrder.AwaitedKeepsGood | task.c:807-854 | A task that its parent begins to wait for is behind last, and moving it there keeps the order. |
| PriorityList.List.Insert | priority_queue.h:236-286 | The circular list stays well linked and gets the node at the asked end, or behind the awaited tasks; last_parent_depends_on is set to the first awaited one. |
| PriorityList.List.Remove | priority_queue.h:410-437 | Exactly that node is bridged out; the result tells whether the list became empty. |
| PriorityList.List.Downgrade | task.c:895-940 | A node that is at the head or followed by a WAITING one goes to the end, otherwise nothing moves; if it was last_parent_depends_on, its neighbour takes its place if that is an awaited WAITING task. |
| PriorityList.List.Start | task.c:964-1012 | The links and fields after a task has become TIED are those that PriorityOrder.Started says. |
| PriorityList.List.Upgrade | task.c:827-854 | The node is relinked behind last_parent_depends_on, or at the front, and becomes it. |
| PriorityList.List.Await | task.c:1516-1535 | Marking a task as awaited, and upgrading it if it is WAITING, does what PriorityOrder.Awaited says. |
| PriorityList.Rotate | priority_queue.h:236-286 | A well-linked circle is well linked from whatever node it is read. |
| PriorityQueue.SearchIsRight | priority_queue.c:216-231 | The search of the tree finds a WAITING task whenever there is one, of the highest priority that any WAITING task has. |
| PriorityQueue.NextTaskIsHighest | priority_queue.h:371-408 | The next task is WAITING if and only if the queue has a WAITING task, and then none has a higher priority. |
| PriorityTree.Queue.Insert | priority_queue.h:288-361 | The task is added at the asked end of its priority and no other task moves, also when the list of priority 0 is transferred to the tree. |
| PriorityTree.AddedIs | priority_queue.h:236-286 | The new task is the first or the last of its priority, and all others are where they were. |
| PriorityTree.Queue.Remove | priority_queue.h:446-480 | One task leaves; a priority without tasks leaves the tree; the result tells whether the queue became empty. |
| PriorityTree.RemovedIs | priority_queue.h:410-437 | Exactly the task at that position is gone, with its priority if it was the only one. |
| PriorityTree.Queue.NextBelow | priority_queue.c:216-231 | The recursion over the nodes computes the search of PriorityQueue. |
| PriorityTree.Queue.Next | priority_queue.h:371-408 | Returns a head that is WAITING if and only if some task is, and then of the highest such priority. |
| Places.Spread | team.c:754-770 | Every place of the partition is in exactly one of the subpartitions that the walk returns, that of the master in the first; each has floor or ceiling of len / threads places and starts where the one before it ends, around the partition. |
| Places.BlocksPartition | team.c:387-411 | With at most as many threads as places, every place is in exactly one block. |
| Places.LargerBlocks | team.c:397-411 | A block is among the larger ones if and only if it starts before the last larger one ends, which is the test of the code. |
| Places.WrapHits | team.c:754-770 | The walk reaches the end of the partition exactly, so the equality test of the wrap-around is never jumped over. |
| Places.MasterBlock | team.c:397-411 | Rounding down from the place of the master gives the start of its block. |
| Places.Pack | team.c:737-788 | With more threads than places, thread i is on the place that its step around the partition says; every place of the partition gets T / P threads, or one more if it is among the first T % P places from the master on. |
| Places.BlocksIfEven | team.c:366-379 | The threads on each place have consecutive numbers if and only if the number of places divides that of the threads. |
| Places.LeftOverComesBack | team.c:737-751 | Three threads on two places, of which the third comes back to the place of the first. |
| Places.LoadsAreEven | team.c:737-788 | Then every place gets T / P threads, or one more for the first T % P places after the master's. |
| Places.OneEach | team.c:737-751 | With close and at most as many threads as places, threads go around one place each, and no two share one. |
| Places.AroundIsPermutation | team.c:725-791 | Going around from the place of the master reaches every place exactly once. |
| Taskloop.TripCountIsRight | taskloop.c:56-86 | The trip count counts exactly the iterations that the loop runs. |
| Taskloop.TasksPartition | taskloop.c:88-148 | Every iteration is in exactly one task. |
| Taskloop.GrainCovers | taskloop.c:89-130 | The cut made for a grainsize has all iterations and no empty task. |
| Taskloop.NumberCovers | taskloop.c:131-148 | So has the cut made for num_tasks. |
| Taskloop.GrainsizeHolds | taskloop.c:89-130 | Under grainsize g every task has at least min(g, n) and fewer than 2g iterations (OpenMP 4.5 section 2.9.2). |
| Taskloop.NumberHolds | taskloop.c:131-148 | Under num_tasks there are min(num_tasks, n) tasks of sizes that differ by at most one. |
| Taskloop.MakeTasks | taskloop.c:192-200 | The loop that advances start and task_step, wrapping as words do, gives each task the values of its first and end iteration; a single task gets the end of the loop. |
| Taskloop.TaskRuns | taskloop.c:192-200 | Each task, with the bounds that MakeTasks gives it, runs exactly its iterations if and only if it is the only task or its end is a word, which only the end of the last task can fail to be. |
| Taskloop.TasksRunTheLoop | taskloop.c:192-215 | All tasks together run each iteration of the loop exactly once and nothing else, if and only if there is just one for the whole loop or the end of the last task is a word. |
| Taskloop.LastTaskIsLost | taskloop.c:192-200 | A concrete loop with the right count that is cut into two tasks and whose last iteration no task runs. |

## Left out

- Cancellation and asynchronous target tasks: they add cases, not deeper claims.
- Memory order weaker than sequential consistency, fences, spin counts and the futex system call: a wait set stands for the kernel, and the 32 bits that a futex compares are taken to be the whole word.
- Fairness: that a thread gets its turn is not assumed and so not concluded; the results are that somebody can go on, and that steps lead towards an end.
- TeamBarrier.AdvancesOnlyWhenDone: the counter of `generation` is unbounded in the model, while the source wraps at 32 bits (TeamBarrier.CounterMayWrap says why that makes no difference to the tests); the final barrier (`awaited_final`), sleeping and waking at this barrier, taskwait, taskgroups, undeferred tasks and task priorities are not part of this model.
- TaskGraph.DependOrderIsComplete: a parent that ends while dependency-blocked children remain is not modelled, and a parent that waits for some of its children is not in this graph but in `PriorityOrder`.
- DependHash.Table.HandleDepend: the growth of a dependers vector is appending, and a map of addresses stands for the hash table, whose slot stays with an empty chain; that an entry repeats an address of its task is settled when it is made.
- WorkShare.NoUseAfterFree: the reset of a barrier and its release are one step, and the lock and ordered fields of a block, copyprivate, orphaned constructs, the list of blocks to free at the end of a team, and the return of teams to a pool are not modelled.
- OrderedQueue.WorkShare.First: teams of one thread, which return at once, are left out, as are statically scheduled ordered loops.
- Ordered.RegionsAreInOrder: chunks are numbers in iteration order; what they contain is `IterDynamic`.
- LoopCounts.CountIsTrips: wrapping is what two's complement does; the C standard leaves the overflow of longs undefined, and the quotient of the least long by -1, which traps on some machines, is taken to wrap as well.
- Htab.Table.FindSlot: tables that would grow into the last row, above 2^31 - 1, are left out, because probing goes astray there (Htab.NextIndexIsExact, Htab.LastRowGoesAstray); the caller has to store an entry in the slot it is given before the next call.
- Htab.Table.constructor: a requested size in the last row is left out for the same reason.
- Htab.Table.Expand: so are live counts that would choose the last row,
- Htab.NewRowFits: which are those above half of the size of the row before it.
- Htab.MoveAll: a new table in the last row is left out for the same reason.
- Htab.FindEmptySlot: so is probing for an empty slot there.
- Htab.Table.Put: likewise, live counts that would grow into the last row are left out.
- HtabMod.HigherPrimeIndex: beyond the last prime the source reads past its table or aborts; the model returns the number of rows.
- SplayTree.SplayTree.Insert: a duplicate ends the program in the source; the model returns false.
- The traversal `splay_tree_foreach` and the amortised cost of splaying: simple recursion, and no claim about time.
- PriorityList.List.Start: the counters and the other queues of gomp_task_run_pre are left out; the list is that of one priority of the children, the taskgroup or the team.
- PriorityOrder.OrderIsKept: undeferred and asynchronous target tasks, which enter and leave the list in other ways, are left out.
- PriorityTree.Queue.Insert: lists are values here; how they are relinked in place is PriorityList.List.Insert.
- The search of two queues at once (priority_queue.c:248-287): it adds a comparison of two results of the search modelled here.
- Places.Spread: proc_bind master, the reuse of pool threads and affinity masks are not modelled.
- Taskloop.MakeTasks: the creation of the task records, and the limit on their number in the unsigned form for 32-bit longs, are left out.
- The unsigned forms of doacross (ordered.c:491-760) and the alignment of slots: the same protocol with other types.
- Environment parsing, affinity, device offloading and OpenACC: system queries and foreign calls.
