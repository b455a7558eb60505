# A model of Pheromone and Demeter

Pheromone is a serverless platform in which functions are triggered by data: worker
nodes run executors behind a local scheduler, a coordinator routes calls and keeps
triggers consistent, and processes on a node talk over a shared-memory channel.
Demeter adds a DAG optimizer, a placement policy and a simulator on top. This project
models the parts of both in which correctness is a matter of many steps, many
participants or exact arithmetic, and proves what they promise for every input, every
interleaving and every run.

| file | models |
|---|---|
| `Ring.dfy` | the lock-free multi-producer/multi-consumer unicast ring, one atomic access per step, payloads copied word by word |
| `SharedMutex.dfy`, `RwLock.dfy` | the two reader/writer locks, one atomic access per step |
| `BySetTrigger.dfy`, `TriggerInstance.dfy`, `TriggerProtocol.dfy` | the data-trigger protocol between worker nodes and the coordinator |
| `TriggerAccounting.dfy` | whole-run accounting of the batch, redundant and dynamic-group triggers |
| `Reassembly.dfy` | message fragments, their interleaving, and the receiver's cache |
| `DataflowJoin.dfy` | calls that wait for remote key arguments |
| `Names.dfy`, `Dag.dfy`, `Expansion.dfy`, `Simulator.dfy` | stage expansion, topological batches, readiness, the Pheromone policy and the simulation loop |
| `BatchSplit.dfy`, `Placement.dfy` | the coordinator's two request schedulers |
| `WordCount.dfy` | map/combine/partition/reduce word count |
| `PartitionedMap.dfy` | the partitioned ordered map against one flat map |
| `CausalLattice.dfy` | vector clocks and causal merge |
| `CallEncoding.dfy`, `Text.dfy`, `Numbers.dfy` | the call message, its parser, argument slots, object names, `getline` and decimal text |
| `Sets.dfy` | sizes of finite sets, used throughout |

Concurrent code is a transition system over single atomic accesses; a run is a schedule,
a sequence of scheduling decisions in which an impossible one is skipped, so a lemma
about every schedule is a lemma about every interleaving. Objects that the source
updates in place are classes whose methods are proved against functions on values, and
the run-wide lemmas are about those functions.

## Where code and documentation disagree

- The comment above `contention_free_shared_mutex` (`pheromone/common/include/safe_ptr.hpp:347`)
  says that X inside X, S inside X and S inside S may be taken recursively. X inside X always
  works (`SharedMutex.ExclusiveInsideExclusive`). A thread that holds the global flag, through
  `lock` or as a reader without a slot, gets a shared lock if and only if it already reads
  through its slot, or has no slot and the call finds none free
  (`SharedMutex.SharedInsideFlagIff`); otherwise it waits for ever for the flag it holds itself.
  Both failures are reachable: `lock` followed by `lock_shared` in a thread that never had a
  slot (`SharedMutex.ExclusiveThenSharedBlocks`), and two nested shared locks of a reader that
  found no slot the first time and one the second time (`SharedMutex.SharedThenSharedBlocks`).
- The redundant trigger is parameterised as "k of n", but with `k >= n` its cycle is
  `k + 1` arrivals and not `n`: `TriggerAccounting.RedundantPeriod` states for which
  parameters the two agree.
- The receiver's cache is pruned when it holds more than 1024 partial messages, and a
  pruned message is later returned without its beginning
  (`Reassembly.ForgottenMessageIsCutShort`). `Reassembly.IntactIffNeverPruned` says exactly
  which messages are intact: those for which the guard of the pruning branch held at no
  arrival while they were partial. The fragment that prunes need not be the first of its
  message: one whose own message was pruned before counts as a first one again.
- The simulation loop need not end. Under the Pheromone policy exactly those functions finish
  that neither lie on or after a cycle nor are or come after a function without a known data
  centre, and the loop ends if and only if that is everybody and no job is empty
  (`Simulator.DemeterEnv.RunFor`, `Simulator.RunnableIff`, `Simulator.EmptyJobNeverDone`).
- Merging causal versions is not associative. `CausalLattice.SingleKeyAssociatesIff` and
  `CausalLattice.MultiKeyAssociatesIff` say, by comparing the three clocks alone, exactly when
  the grouping is immaterial; `CausalLattice.SplitFails` and `CausalLattice.BetweenFails` are
  two families of clocks for which it is not.

## Model

| member | source | states |
|---|---|---|
| `Ring.StepInv` | pheromone/common/shm-ipc/src/libipc/prod_cons.h:117-187 | every atomic step of every thread keeps the ring invariant: counters within a lap, phases of all reserved indices, flags, and what each thread's locals imply |
| `Ring.Safety` | pheromone/common/shm-ipc/src/libipc/prod_cons.h:117-187 | in every interleaving of any number of threads: rd <= wt <= ct <= rd+255, the popped values are exactly the first rd values in reservation order (no loss, duplicate, reorder or torn read), no two writers share a slot, no writer is in a readable slot |
| `Ring.HistoriesGrow` | pheromone/common/shm-ipc/src/libipc/prod_cons.h:117-187 | over any continuation of a run, the reservation and delivery histories only grow by appending |
| `Ring.Helping` | pheromone/common/shm-ipc/src/libipc/prod_cons.h:130-150 | every reserved, invisible index is being written, or carries its commit flag with its data, or is wt itself with exactly one thread about to advance it |
| `Ring.PushGivesUp` | pheromone/common/shm-ipc/src/libipc/prod_cons.h:119-130 | from every state of the invariant, a push that has not reserved goes on, reserves its own value at the counter, or gives up, and it gives up only with 255 items unread or when the index it loaded has been read since; a failed exchange, lost or spurious, makes it try again |
| `Ring.PushInAnyRun` | pheromone/common/shm-ipc/src/libipc/prod_cons.h:119-130 | in every interleaving a push is still trying, or was decided at some step in exactly one of those two ways |
| `Ring.PopGivesUp` | pheromone/common/shm-ipc/src/libipc/prod_cons.h:159-187 | a pop goes on, takes the oldest unread item, or returns empty-handed, and that only at its flag test and only if the item it looked for was not there to take; no failed exchange ends it |
| `Ring.PopSeesNothing` | pheromone/common/shm-ipc/src/libipc/prod_cons.h:162-169 | a pop gets to its flag test only if it saw no visible item, or its read counter is old |
| `Ring.PopInAnyRun` | pheromone/common/shm-ipc/src/libipc/prod_cons.h:159-187 | in every interleaving a pop is still trying, or was decided at some step in exactly one of those two ways |
| `Ring.PopAlone` | pheromone/common/shm-ipc/src/libipc/prod_cons.h:160-187 | a pop run alone terminates and succeeds exactly when something is reserved, returning item rd even if no pusher advanced wt, however many of its weak exchanges fail for no reason |
| `Ring.PushAlone` | pheromone/common/shm-ipc/src/libipc/prod_cons.h:117-151 | a push run alone terminates, refuses exactly when 255 items are unread, and otherwise appends its value, however many of its weak exchanges fail for no reason; if all earlier items were visible its own is when it returns |
| `SharedMutex.StepInv` | pheromone/common/include/safe_ptr.hpp:451-548 | every atomic step of registration, locking and unlocking keeps the lock invariant |
| `SharedMutex.MutualExclusion` | pheromone/common/include/safe_ptr.hpp:451-548 | in every interleaving without upgrades, an exclusive holder excludes every other writer, slot reader and fallback reader, and the plain counter equals the holder's nesting depth |
| `SharedMutex.UnlockReleases` | pheromone/common/include/safe_ptr.hpp:542-548 | from every state of the invariant, `unlock` run alone returns with one level less; with the last level the flag is down and has no owner, before that it stays; nobody else and no slot changes |
| `SharedMutex.UnlockFallbackReleases` | pheromone/common/include/safe_ptr.hpp:513-518 | the same for `unlock_shared` of a reader without a slot |
| `SharedMutex.UnlockSlotReleases` | pheromone/common/include/safe_ptr.hpp:505-512 | `unlock_shared` of a reader with a slot lowers the slot by one at any nesting depth, and changes nothing else |
| `SharedMutex.UnregisterFrees` | pheromone/common/include/safe_ptr.hpp:449-449 | a thread that holds nothing gives its slot back, free |
| `SharedMutex.LockTakes` | pheromone/common/include/safe_ptr.hpp:522-540 | `lock` run alone on a free mutex without readers returns holding it, one level deep |
| `SharedMutex.FallbackTakes` | pheromone/common/include/safe_ptr.hpp:494-502 | `lock_shared` of a thread without a slot returns on a free mutex holding the flag |
| `SharedMutex.SlotTakes` | pheromone/common/include/safe_ptr.hpp:473-492 | `lock_shared` of a thread with a slot returns one level deeper if the flag is down or the thread reads already |
| `SharedMutex.RegisterTakes` | pheromone/common/include/safe_ptr.hpp:451-492 | `lock_shared` of a thread without a slot takes the first free one and reads through it |
| `SharedMutex.SpinnerGetsIn` | pheromone/common/include/safe_ptr.hpp:483-488 | a reader that backed off and waits gets in once the flag is down |
| `SharedMutex.AcquireInAnyRun` | pheromone/common/include/safe_ptr.hpp:451-540 | in every interleaving a call for a lock is still under way, or ended with the thread holding what it held before and one level more of the kind it asked for |
| `SharedMutex.SelfBlockedForEver` | pheromone/common/include/safe_ptr.hpp:473-503 | a thread that asks for a shared lock through its slot while it holds the flag is blocked in every continuation |
| `SharedMutex.ExclusiveInsideExclusive` | pheromone/common/include/safe_ptr.hpp:522-540 | X inside X returns in three steps with one level more |
| `SharedMutex.SharedInsideFlagIff` | pheromone/common/include/safe_ptr.hpp:451-503 | for every state of the invariant and every holder of the flag between calls: run alone, `lock_shared` returns if and only if the thread already reads through its slot, or has no slot and either does not register or finds the array full |
| `SharedMutex.CallAmongOthers` | pheromone/common/include/safe_ptr.hpp:473-503 | in every interleaving, such a call that has not returned is self-blocked exactly when it ended up with a slot, and one that fell back on the flag never blocks |
| `SharedMutex.ExclusiveThenSharedBlocks` | pheromone/common/include/safe_ptr.hpp:347-347 | from the initial state, lock then lock_shared in one thread reaches a self-blocked state |
| `SharedMutex.SharedThenSharedBlocks` | pheromone/common/include/safe_ptr.hpp:347-347 | from the initial state, two nested lock_shared of a reader that had no slot the first time reach a self-blocked state |
| `RwLock.StepInv` | pheromone/common/shm-ipc/include/libipc/rw_lock.h:133-168 | every step keeps: the word is the number of readers plus 2^31 exactly while a writer holds or drains |
| `RwLock.Exclusion` | pheromone/common/shm-ipc/include/libipc/rw_lock.h:133-168 | in every run with fewer than 2^31 readers the word spells out the holders, there are never two writers, and never a writer with a reader |
| `RwLock.NoReaderOvertakes` | pheromone/common/shm-ipc/include/libipc/rw_lock.h:150-164 | once a writer has set the flag no step adds a reader |
| `RwLock.UnlockReleases` | pheromone/common/shm-ipc/include/libipc/rw_lock.h:146-148 | `unlock` leaves the word 0, no writer and no reader, and touches nobody else |
| `RwLock.UnlockSharedLowers` | pheromone/common/shm-ipc/include/libipc/rw_lock.h:166-168 | `unlock_shared` lowers the word and the number of readers by one and keeps the writer |
| `RwLock.CallEndsHolding` | pheromone/common/shm-ipc/include/libipc/rw_lock.h:133-164 | a call ends only with the lock: `lock` as the writer, `lock_shared` with one shared level more |
| `RwLock.LockTakes` | pheromone/common/shm-ipc/include/libipc/rw_lock.h:133-144 | `lock` takes a free lock in its first step, and a writer gets in at its next step once the readers are gone |
| `RwLock.LockSharedTakes` | pheromone/common/shm-ipc/include/libipc/rw_lock.h:150-164 | without a writer, `lock_shared` run alone gets in |
| `RwLock.TooManyReaders` | pheromone/common/shm-ipc/include/libipc/rw_lock.h:150-164 | the bound on readers is exact: the reader that makes it 2^31 raises the writers' flag |
| `BySetTrigger.Trigger.ActionForNewObject` | pheromone/common/include/trigger.hpp:209-226 | at most one action, exactly when the session's key set completes, holding each key of the set once; the session is then forgotten |
| `BySetTrigger.Trigger.Clear` | pheromone/common/include/trigger.hpp:265-268 | the session is forgotten and no other session changes |
| `BySetTrigger.FiresOnWholeSet` | pheromone/common/include/trigger.hpp:212-224 | as long as only keys of the set are prepared, a trigger fires exactly when the arrival completes the set |
| `BySetTrigger.CheckObjectArrival` | pheromone/src/scheduler/object_handlers.cpp:24-62 | every trigger of the bucket sees the object; the reported names are exactly those that fired, and the actions are theirs, in the bucket's order, each with its whole key set |
| `BySetTrigger.ReplayObject` | pheromone/src/coordinator/notify_handler.cpp:63-75 | every trigger sees the replayed object; exactly those fire that complete and were not already fired by the sender, each with its whole key set |
| `TriggerInstance.ApplyInv` | pheromone/src/coordinator/notify_handler.cpp:31-75 | every protocol move (production, notification, replay, clear) keeps the per-session invariant |
| `TriggerInstance.CompletionIsActive` | pheromone/src/coordinator/notify_handler.cpp:66-69 | if a node fired, the notification that completes the coordinator's set is the one marked as fired |
| `TriggerInstance.Outcome` | pheromone/src/coordinator/notify_handler.cpp:197-215 | at most one firing; exactly one when everything was produced and heard; no residue after the clears |
| `TriggerProtocol.ViewMatches` | pheromone/include/scheduler/comm_helper.hpp:317-326 | each step of the full system, with all triggers and sessions, is one move of the view from a single trigger and session |
| `TriggerProtocol.ExactlyOnce` | pheromone/src/coordinator/notify_handler.cpp:44-75 | for any nodes, placement and FIFO-respecting interleaving, unique production fires the trigger at most once per session, exactly once when the queues drain, and leaves no partial state after the clears |
| `TriggerProtocol.FiresWithTheKeySet` | pheromone/common/include/trigger.hpp:209-226 | in every run an arrival fires a trigger at a node or the coordinator exactly when it completes the trigger's key set there |
| `TriggerProtocol.TwiceProducedFiresTwice` | pheromone/common/include/trigger.hpp:209-226 | unique production is needed: producing a key twice can fire twice |
| `TriggerAccounting.ByBatchSizeTrigger.ActionForNewObject` | pheromone/common/include/trigger.hpp:153-169 | keeps: what was handed out and what is buffered are the arrivals, in full batches |
| `TriggerAccounting.BatchConserves` | pheromone/common/include/trigger.hpp:153-169 | over every run, the actions concatenated with the buffer are the arrivals, each action of exactly `count` |
| `TriggerAccounting.RedundantTrigger.ActionForNewObject` | pheromone/common/include/trigger.hpp:346-363 | fires exactly on the k-th arrival of every cycle, with the k arrivals of that cycle |
| `TriggerAccounting.RedundantFires` | pheromone/common/include/trigger.hpp:346-363 | an arrival fires exactly when it is the k-th of its cycle, with exactly the k arrivals of that cycle |
| `TriggerAccounting.RedundantPeriod` | pheromone/common/include/trigger.hpp:346-363 | arrivals i*period+k fire; the period is n if and only if k < n |
| `TriggerAccounting.RedundantZero` | pheromone/common/include/trigger.hpp:346-363 | with k = 0 nothing fires |
| `TriggerAccounting.DynamicGroupTrigger.ActionForNewObject` | pheromone/common/include/trigger.hpp:290-316 | fires exactly when the last control key arrives, and hands out the partition by prefix of the distinct data keys since the last firing |
| `TriggerAccounting.PrefixBeforeColon` | pheromone/common/include/trigger.hpp:293-293 | the prefix of a key with a colon is what stands before the first one |
| `TriggerAccounting.PrefixOfPlain` | pheromone/common/include/trigger.hpp:293-293 | the prefix of a key without a colon is the key |
| `TriggerAccounting.DynamicAccounts` | pheromone/common/include/trigger.hpp:290-316 | in every run an arrival fires exactly when it is a control key and all control keys arrived since the last firing, and the actions partition by prefix exactly the distinct data keys since then |
| `Reassembly.Send` | pheromone/common/shm-ipc/src/ipc.cpp:461-479 | the fragment loop yields the full fragments and a short last one, with the right remainders and padding |
| `Reassembly.Receiver.Recv` | pheromone/common/shm-ipc/src/ipc.cpp:543-587 | pops until a message completes or the queue is empty, with the cache and buffer of accepting those fragments in order |
| `Reassembly.ReassemblyExact` | pheromone/common/shm-ipc/src/ipc.cpp:543-587 | for every interleaving of fragment streams with distinct ids, the receiver has returned exactly the fully arrived messages, once each and in order of completion, each from the fragment after the cache last forgot it |
| `Reassembly.IntactIffNeverForgotten` | pheromone/common/shm-ipc/src/ipc.cpp:66-86 | a returned buffer holds the message's exact bytes if and only if the cache never forgot it, and no byte of it is uninitialised |
| `Reassembly.ForgottenIffPruned` | pheromone/common/shm-ipc/src/ipc.cpp:546-573 | a message was forgotten if and only if, at some arrival, somebody else's fragment with more to come found no entry of its own in a cache of more than 1024, more than 8192 ids away, while the message had arrived in part |
| `Reassembly.IntactIffNeverPruned` | pheromone/common/shm-ipc/src/ipc.cpp:546-587 | a returned buffer is exact if and only if that guard held for its message at no arrival |
| `Reassembly.RoomyIsExact` | pheromone/common/shm-ipc/src/ipc.cpp:560-573 | if every first fragment finds at most 1024 partial messages, or only near ids, every completed message is exact |
| `Reassembly.ForgottenMessageIsCutShort` | pheromone/common/shm-ipc/src/ipc.cpp:560-573 | with 1025 partial messages and a far id, a 65-byte message comes back as one byte |
| `DataflowJoin.Scheduler.Call` | pheromone/src/scheduler/scheduler_server.cpp:499-546 | the arrival loop over the two maps has the effect of a call event, whose outcome `DataflowJoin.CallIsHeld` states field by field, with one request per key nobody waits for; the invariant is kept |
| `DataflowJoin.Scheduler.Data` | pheromone/src/scheduler/scheduler_server.cpp:548-590 | an answer makes the key local and tells every listed call in ascending order; the invariant is kept |
| `DataflowJoin.EveryRun` | pheromone/src/scheduler/scheduler_server.cpp:499-590 | in every run the two maps are inverse relations, stored calls miss something, each call waits or was dispatched exactly once with all key arguments local, and each awaited key has exactly one request outstanding |
| `DataflowJoin.LensAreLatest` | pheromone/src/scheduler/scheduler_server.cpp:548-549 | in every run a key is local exactly when it was answered or stored, with the size of the latest answer or storage |
| `DataflowJoin.CallIsHeld` | pheromone/src/scheduler/scheduler_server.cpp:505-545 | a call that comes in is stored with its own fields and exactly its keys that are not local, or goes out at once with its own function, session, flag and arguments in order, each key with its size |
| `DataflowJoin.CallFate` | pheromone/src/scheduler/scheduler_server.cpp:499-590 | the fate of every call in every run: it waits, with its own fields and exactly the keys still missing, as long as one that was not local when it came has not been answered; otherwise it went out on the event after which it first missed nothing, with its own function, session, flag and arguments in order, each key with its latest size at that time |
| `DataflowJoin.SentOnce` | pheromone/src/scheduler/scheduler_server.cpp:499-590 | at most one dispatch of a call, and none while it waits |
| `DataflowJoin.SettleAscends` | pheromone/src/scheduler/scheduler_server.cpp:569-587 | the calls that one answer sets free go out in ascending order |
| `DataflowJoin.RunTracks` | pheromone/src/scheduler/scheduler_server.cpp:569-590 | over any continuation a waiting call has lost exactly the answered keys or went out with the function, session and arguments it came with |
| `DataflowJoin.DispatchedOnceAnswered` | pheromone/src/scheduler/scheduler_server.cpp:569-590 | once all the keys a call missed are answered it has been dispatched |
| `Expansion.NameInjective` | MARL/optimizer.py:58-58 | function names of a job never collide, whatever the stage names hold |
| `Expansion.Functions` | MARL/optimizer.py:54-71 | the table holds, for every stage name, the functions 0..width-1 in order, also when stage names repeat |
| `Expansion.ZipCount` | MARL/optimizer.py:77-78 | pairing two stages by sorted name joins equal indices, although names sort as text |
| `Expansion.LastStageDecides` | MARL/optimizer.py:51-76 | the trigger of an edge is that of the last stage named as its target, and "direct" when there is none |
| `Expansion.WidthIsLargest` | MARL/optimizer.py:54-58 | the number of functions of a stage name is the largest parallelism among its stages |
| `Expansion.ExpandExecutionGraph` | MARL/optimizer.py:50-86 | the lists are inverse as multisets and closed; the vertices are the stages' functions; function i of s precedes function j of t exactly when (s, t) is an edge and, if the widths are equal and the last stage named t asks for "direct" or "one_to_one", i = j; and it does so as often as the edge occurs |
| `Expansion.PendingHasNoPredecessor` | MARL/optimizer.py:119-120 | a function starts pending if and only if no edge leads into its stage, and then has no predecessor |
| `Expansion.StagesAcyclic` | MARL/optimizer.py:73-83 | an acyclic stage graph expands to an acyclic function graph |
| `Names.SortedAscends` | MARL/optimizer.py:106-106 | sorting puts names in ascending text order |
| `Names.SortedPermutes` | MARL/optimizer.py:106-106 | sorting keeps every name as often as it occurs |
| `Names.LeqIsLexicographic` | MARL/optimizer.py:106-106 | in that order the first differing character decides, and a prefix comes first |
| `Dag.BatchIsLongestPath` | MARL/optimizer.py:106-116 | batch numbers are longest path lengths, attained from a source |
| `Dag.BatchedIffUntainted` | MARL/optimizer.py:106-116 | a function is in some batch if and only if it neither lies on a cycle nor comes after one |
| `Dag.SortedSourcesAre` | MARL/optimizer.py:106-106 | the sorted sources are exactly the functions without predecessors, once each, in ascending order |
| `Dag.TopologicalBatches` | MARL/optimizer.py:99-117 | every function at most once, in the batch of its longest path from a source; the missing ones are exactly those on or after a cycle; on an acyclic job nothing is missing; the first batch is the sorted sources |
| `Simulator.EnterAll` | MARL/controller.py:37-40 | the loop leaves the dictionary that the next three rows describe profile by profile |
| `Simulator.LatestKeeps` | MARL/controller.py:37-40 | every profile that no later one with its id replaces is in the dictionary |
| `Simulator.LatestSurvives` | MARL/controller.py:37-40 | every entry is such a profile |
| `Simulator.LatestInOrder` | MARL/controller.py:37-40 | entries stand in the order in which their ids first occur |
| `Simulator.Register` | MARL/simulator.py:43-52 | registering expands the jobs of the dictionary into one closed graph, acyclic if all stage graphs are, whose pending functions wait for nothing and whose jobs list exactly the functions of their profiles |
| `Simulator.DemeterEnv.ReleaseJob` | MARL/optimizer.py:88-97 | exactly the waiting functions whose predecessors are all finished become pending at the given time |
| `Simulator.DemeterEnv.Observe` | MARL/controller.py:42-68 | releases everything ready and lists per data centre exactly the first wave of pending functions that may run there |
| `Simulator.AllPending` | MARL/models.py:187-195 | every listed function exactly once |
| `Simulator.Truncate` | MARL/controller.py:57-59 | how many functions a wave keeps, for every wave size, negative ones counting from the end |
| `Simulator.Best` | MARL/policy.py:52-52 | among the data centres holding most of the function's data, the first |
| `Simulator.Candidates` | MARL/controller.py:51-54 | a function that names no data centre may run in all of them, any other in those it names |
| `Simulator.Plan` | MARL/policy.py:45-55 | one action for every listed function that can run somewhere, on a known candidate data centre that holds most of its data |
| `Simulator.DemeterEnv.Step` | MARL/simulator.py:54-102 | for arbitrary actions: the accepted ones finish in order, time passes the latest finish, what became ready is released, done is reported correctly, and the run invariant is kept |
| `Simulator.StepAmounts` | MARL/simulator.py:77-97 | each function in one step: the first accepted action on it records its data centre, start, duration and finish, nothing else changes but the release; the clock moves to the latest finish, or stays, plus the interval |
| `Simulator.EveryRun` | MARL/simulator.py:54-102 | in every run under any policy, released functions have finished predecessors, start after they end, and a finished function ends no earlier than the durations along any dependency path add up to |
| `Simulator.PathTakesItsTime` | MARL/simulator.py:77-96 | everything a finished function depends on is finished and the durations along a path bound its finish time |
| `Simulator.SomeClearPending` | MARL/optimizer.py:88-97 | after release, if any function that is not stuck is unfinished, one of them is pending, whatever cycles the graph has |
| `Simulator.Decreases` | MARL/policy.py:45-55 | a step planned by the Pheromone policy finishes at least one function while any function that is not stuck is unfinished |
| `Simulator.KeepsClear` | MARL/policy.py:45-55 | under the policy nobody stuck, that is on or after a cycle or a function without data centre, ever finishes |
| `Simulator.DemeterEnv.Run` | MARL/cli.py:35-40 | the loop ends with all functions finished after at most as many steps as there were unfinished functions |
| `Simulator.DemeterEnv.Turn` | MARL/cli.py:38-40 | one turn of the loop finishes at least one function while any that is not stuck is unfinished, none that is stuck, and reports done exactly when nothing is left and no job is empty |
| `Simulator.DemeterEnv.RunFor` | MARL/cli.py:38-40 | without assumptions on graph and data centres: only functions that are not stuck finish, and after as many turns as there were unfinished functions all of them have; done is reported exactly when nothing is left and no job is empty |
| `Simulator.RunnableIff` | MARL/cli.py:38-40 | the conditions under which the loop is shown to end say exactly that nobody is stuck and no job is empty |
| `Simulator.EmptyJobNeverDone` | MARL/models.py:149-152 | with an empty job the environment is not done after any number of steps with any actions |
| `Simulator.Simulate` | MARL/cli.py:34-40 | from the raw profiles: with acyclic stage graphs, no empty job and a data centre for every function, the simulation ends with every function of every profile finished that no later one with its id replaces |
| `Simulator.PlainIdsApart` | MARL/optimizer.py:58-58 | distinct job ids without ':' keep the function names of different jobs apart |
| `Simulator.PlainProfilesApart` | MARL/controller.py:37-40 | with ids without ':' no two jobs of the dictionary share a function name, also when profiles repeat ids |
| `Simulator.DoneWhenNoneLeft` | MARL/models.py:149-152 | all jobs are done if and only if no function is left and no job is empty |
| `BatchSplit.NextWithRoom` | pheromone/src/coordinator/func_call_handler.cpp:76-78 | the inner loop terminates at a node with room and keeps the water-filling form |
| `BatchSplit.Deal` | pheromone/src/coordinator/func_call_handler.cpp:72-82 | round robin is exact water-filling: load i is min(capacity, rounds + 1 for the first p nodes), and all requests are dealt |
| `BatchSplit.Fair` | pheromone/src/coordinator/func_call_handler.cpp:72-82 | if a node is not full, no load exceeds its load by more than one |
| `BatchSplit.ZerosLast` | pheromone/src/coordinator/func_call_handler.cpp:72-82 | zero loads form a suffix |
| `BatchSplit.Slice` | pheromone/src/coordinator/func_call_handler.cpp:84-102 | each node with a load gets its contiguous slice, nobody else gets anything |
| `BatchSplit.AvailableInOrder` | pheromone/src/coordinator/func_call_handler.cpp:52-61 | the nodes with executors left stand in the order of the node table |
| `BatchSplit.RoutedInOrder` | pheromone/src/coordinator/func_call_handler.cpp:84-102 | the slices in node order concatenate to the request list |
| `BatchSplit.ScheduleBatch` | pheromone/src/coordinator/func_call_handler.cpp:50-105 | the first node with most executors takes all if it can; else the batch is dealt out if executors suffice; else nothing; the source never gets anything |
| `Placement.ChooseAllocation` | pheromone/src/coordinator/demeter_scheduler.cpp:21-43 | the least (memory, cpu) allocation that fits, else the last, else the default |
| `Placement.ChooseNode` | pheromone/src/coordinator/demeter_scheduler.cpp:140-158 | the first best-scoring node with room, if any has room |
| `Placement.Schedule` | pheromone/src/coordinator/demeter_scheduler.cpp:134-185 | every request is routed exactly once in original relative order with its allocation, to the first best-scoring node given the counters at its turn; each counter drops by its load but not below zero; while there is capacity nobody gets more than it had and the source nothing |
| `Placement.ShareAt` | pheromone/src/coordinator/demeter_scheduler.cpp:160-185 | a node's message holds its requests in batch order: a request stands after exactly the earlier ones routed to the node |
| `Placement.NeverOversubscribedIffRoom` | pheromone/src/coordinator/demeter_scheduler.cpp:134-165 | no node is oversubscribed and the source is spared if and only if the other nodes have room for the whole batch, and then counters drop by exactly the loads |
| `WordCount.ScanSerialised` | pheromone/examples/cpp/map_reduce/reducer_template.cpp:115-135 | parsing inverts serialisation for keys without ';', including keys with commas |
| `WordCount.ParseRecords` | pheromone/examples/cpp/map_reduce/reducer_template.cpp:111-135 | the character loop computes the scanner up to the end of the C string |
| `WordCount.MapFunction` | pheromone/examples/cpp/map_reduce/wc_map.cpp:1-6 | every word collects exactly its number of occurrences |
| `WordCount.MapTask` | pheromone/examples/cpp/map_reduce/mapper_template.cpp:117-151 | for every reducer, the mapper's object carries exactly the counts of that reducer's words, in any order of the hash map |
| `WordCount.ReduceTask` | pheromone/examples/cpp/map_reduce/reducer_template.cpp:97-149 | a reducer emits exactly the non-empty words of its share with their totals |
| `WordCount.RunJob` | pheromone/examples/cpp/map_reduce/mapper_template.cpp:117-151 | for all texts without ';' and NUL, every non-empty word comes out of exactly one reducer with its total number of occurrences |
| `PartitionedMap.SafeMapPartitioned.constructor` | pheromone/common/include/safe_ptr.hpp:583-585 | bounds in any order and repeated give an empty, valid partitioning by exactly those bounds |
| `PartitionedMap.SafeMapPartitioned.Emplace` | pheromone/common/include/safe_ptr.hpp:616-618 | refines emplace on the flat map: a new key is entered, an existing one keeps its value, whatever partition it falls in |
| `PartitionedMap.SafeMapPartitioned.Erase` | pheromone/common/include/safe_ptr.hpp:625-625 | refines erase on the flat map, with its count |
| `PartitionedMap.SafeMapPartitioned.EraseLowerUpper` | pheromone/common/include/safe_ptr.hpp:610-614 | removes from the flat map exactly the keys from low to up, both included, and keeps the value of every other |
| `PartitionedMap.EmplacedIs` | pheromone/common/include/safe_ptr.hpp:616-618 | key by key, emplace keeps an existing entry and changes no other |
| `PartitionedMap.WithoutIs` | pheromone/common/include/safe_ptr.hpp:610-614 | key by key, exactly the keys within the limits, both included, are gone |
| `PartitionedMap.SafeMapPartitioned.Clear` | pheromone/common/include/safe_ptr.hpp:626-626 | empties the flat map |
| `PartitionedMap.SafeMapPartitioned.Size` | pheromone/common/include/safe_ptr.hpp:620-624 | the partition sizes add up to the size of the flat map |
| `PartitionedMap.SafeMapPartitioned.GetRange` | pheromone/common/include/safe_ptr.hpp:600-608 | exactly the flat map's entries within the limits, in ascending order |
| `PartitionedMap.SafeMapPartitioned.GetEqual` | pheromone/common/include/safe_ptr.hpp:593-598 | the flat map's entry of the key, if any |
| `PartitionedMap.Lookup` | pheromone/common/include/safe_ptr.hpp:587-590 | looking a key up in the flat map is looking it up in the partition part_it selects |
| `CausalLattice.MergeClock` | pheromone/common/include/lattices/core_lattices.hpp:133-151 | the merge loop computes the pointwise maximum in any order |
| `CausalLattice.SingleKeyCausalLattice.DoMerge` | pheromone/common/include/lattices/single_key_causal_lattice.hpp:52-61 | a dominating version replaces, a concurrent one is merged in, an old one is ignored |
| `CausalLattice.MultiKeyCausalLattice.DoMerge` | pheromone/common/include/lattices/multi_key_causal_lattice.hpp:62-75 | the same with dependencies |
| `CausalLattice.DependIs` | pheromone/common/include/lattices/multi_key_causal_lattice.hpp:71-74 | merging dependencies keeps every key; the clock of one that both sides hold is the attained pointwise maximum |
| `CausalLattice.MergeCommutes` | pheromone/common/include/lattices/single_key_causal_lattice.hpp:52-61 | merging two versions commutes if and only if equal clocks carry equal payloads |
| `CausalLattice.UniteCommutes` | pheromone/common/include/lattices/core_lattices.hpp:54-58 | merging values, and merging dependencies with values, commutes, so the previous row applies to both lattices |
| `CausalLattice.MergeIdempotent` | pheromone/common/include/lattices/multi_key_causal_lattice.hpp:62-75 | delivering a version again changes nothing |
| `CausalLattice.ClockIsMaximum` | pheromone/common/include/lattices/core_lattices.hpp:133-151 | for any order and repetition of deliveries the clock is the pointwise maximum of all |
| `CausalLattice.ClocksConverge` | pheromone/common/include/lattices/core_lattices.hpp:133-151 | replicas that received the same versions agree on the clock |
| `CausalLattice.DominatingVersionWins` | pheromone/common/include/lattices/multi_key_causal_lattice.hpp:62-75 | a version that dominates all others is the outcome, whatever the order and repetition |
| `CausalLattice.SurvivorsIff` | pheromone/common/include/lattices/single_key_causal_lattice.hpp:52-61 | which of three versions survive is the same in both groupings if and only if the comparison of the clocks says so |
| `CausalLattice.SingleKeyAssociatesIff` | pheromone/common/include/lattices/single_key_causal_lattice.hpp:52-61 | for three clocks, the grouping is immaterial for all values if and only if the clocks satisfy the stated comparison |
| `CausalLattice.MultiKeyAssociatesIff` | pheromone/common/include/lattices/multi_key_causal_lattice.hpp:62-75 | the same for versions with dependencies |
| `CausalLattice.SplitFails` | pheromone/common/include/lattices/single_key_causal_lattice.hpp:52-61 | a failing shape: the second and third version are concurrent and together make up the first |
| `CausalLattice.BetweenFails` | pheromone/common/include/lattices/single_key_causal_lattice.hpp:52-61 | a failing shape: the third lies between the second and what it makes with a concurrent first |
| `CausalLattice.SplitWritesNotAssociative` | pheromone/common/include/lattices/single_key_causal_lattice.hpp:52-61 | concretely, a version that has seen two writes, and those writes |
| `CausalLattice.MergeNotAssociative` | pheromone/common/include/lattices/single_key_causal_lattice.hpp:52-61 | concretely, three versions whose groupings leave different values |
| `Text.Split` | pheromone/common/include/common.hpp:109-116 | the getline loop computes the fields |
| `Text.FieldsBetween` | pheromone/common/include/common.hpp:109-116 | splitting undoes joining except that an empty last field is lost |
| `Text.FieldsJoin` | pheromone/examples/cpp/map_reduce/mapper_template.cpp:60-67 | splitting loses nothing but possibly one trailing delimiter |
| `CallEncoding.EncodeCall` | pheromone/src/scheduler/scheduler_server.cpp:158-177 | the encoder's loop produces the header, the metadata and the bar-separated fields |
| `CallEncoding.RoundTrip` | pheromone/src/executor/executor_server.cpp:86-110 | for fields without bar or NUL, the executor recovers the call if and only if the last field is not empty and the metadata fits its length byte |
| `CallEncoding.KeyCallRoundTrip` | pheromone/src/executor/executor_server.cpp:92-110 | a call with key arguments arrives with bucket, key and size of every object |
| `CallEncoding.SharedLayout` | pheromone/src/executor/executor_server.cpp:153-160 | with flag 1, slot j is object j with its size |
| `CallEncoding.NamedLayout` | pheromone/src/executor/executor_server.cpp:161-173 | with flag 2, slot 2j is the key of object j and slot 2j+1 the object with its size |
| `CallEncoding.LayOut` | pheromone/src/executor/executor_server.cpp:126-180 | key arguments that do not come in threes are refused; otherwise every slot of the argument array is set, to its value, its object, or alternately key and object |
| `CallEncoding.SlotsAreObjects` | pheromone/src/executor/executor_server.cpp:153-173 | the slots name exactly the objects and sizes the scheduler sent |
| `CallEncoding.NameRoundTrip` | pheromone/common/include/common.hpp:34-72 | printing and parsing an object name gives it back if and only if the bucket has no bar and either the session has 16 characters and the key is not empty, or both are empty |

## Left out

- Weak memory orders and wrap-around of the 32-bit ring counters: the ring and the locks are modelled with sequentially consistent memory and unbounded counters.
- The broadcast variants of the ring, `force_push` and receiver disconnection, and the single/single and single/multi unicast specialisations.
- Exactness of refusals under contention: a concurrent `push` may say full and a concurrent `pop` empty although neither was the case all along. `Ring.PushInAnyRun` and `Ring.PopInAnyRun` state what must hold when a call gives up, `Ring.PushAlone` and `Ring.PopAlone` are exact without contention; that a call among others ever ends is not stated, because the loops of the source bound no number of lost exchanges.
- Thread exit and destruction of the shared mutex; upgrading from shared to exclusive, which the source declares undefined.
- Large messages that go through shared storage: only the fragment path of `send` is modelled, which the source takes for small messages and when no storage is available.
- Timers, rerun caches and queues, the delay queue, `ByTimeTrigger` and `ByNameTrigger`: they depend on the wall clock, and reruns produce keys again.
- Several nodes sharing a batch, redundant or dynamic-group trigger: local and coordinator firings can race with the clear, so only the BySet trigger has a distributed guarantee.
- `clear` on the redundant trigger adds k to the counter; the accounting lemmas are about runs without it.
- TriggerAccounting.DynamicGroupTrigger.ActionForNewObject: hands out groups as sets, so the order of actions and of keys inside one, and the session attached to them, is not captured.
- Executor status and the choice of executor in `schedule_func_call`; the answers to get requests of executors.
- The call counter's 32-bit wrap-around in the local scheduler.
- Duration, price and affinity formulas: durations are an arbitrary non-negative oracle, scores and data volumes arbitrary functions; allocations, costs, rewards and data-centre counters of the simulator are not modelled.
- The other policies (random, greedy, heuristic, learned): `Simulator.EveryRun` covers what holds for any policy, termination is proved for the Pheromone policy.
- Simulator.Register: requires different jobs to have different function names, because the action loop looks functions up by name alone and the later job would hide the earlier one's; `Simulator.PlainProfilesApart` gives this for all ids without ':', and profiles that repeat an id are covered.
- Simulator.Simulate: has the same requirement.
- Simulator.AllPending: the order of first mention is not stated; it decides only which duration of the oracle a function gets.
- Simulator.Plan: the allocation attached to an action is not modelled, because it enters only durations and costs.
- Simulator.DemeterEnv.Step: has no allocations, costs, rewards and data-centre counters in its state.
- Job arrival times: the simulator stores them but does not wait for them.
- The session id and source that the split message of `func_call_handler` does not copy; single-request routing and its random fallback.
- Nodes with an empty address, which the Demeter scheduler cannot tell from no node.
- 32-bit overflow of counts and `stoi` on text that a mapper or scheduler did not write; the reducer's output text, which has no separators.
- Buffer sizes of the mapper's and reducer's objects.
- Locking inside the partitioned map, and range calls with low above up, which run past the end in the source.
- Network, protobuf, configuration, logging and the clients.
