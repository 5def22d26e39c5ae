# Verified model of StateManager

StateManager is a C++ library that keeps JSON objects in Redis, locks keys with SETNX, delivers
pub/sub messages to callbacks on a thread pool that grows and shrinks, and logs through pluggable
loggers. This project models its stateful core in Dafny and proves what holds in every run.

Each concurrent component appears twice. A transition system (`...Model`) has one action per atomic
load, compare-and-swap, store or lock-protected section, so a run is a sequence of actions chosen by
an arbitrary scheduler, and theorems speak of all runs. An object (`ThreadPool`, `RedisStorage`,
`AsyncLogger`, `RedisChannel`, `RotatingFileLogger`) changes its fields in place with the source's
loops and branches; its methods let the other threads act wherever a thread can be preempted, and
are proved to extend a run of the transition system, so every theorem about runs holds of the object.

- `PoolModel`, `PoolInvariants`, `PoolScaling`, `PoolMinimum`, `PoolShutdown`, `PoolService`,
  `PoolWaiting`, `PoolGrowth`, `PoolThreads`, `ThreadPool`: the pool.
  A worker holds the mutex from the moment its wait returns; manager, workers and clients interleave
  at every load and compare-and-swap; a weak compare-and-swap may fail for no reason.
- `ScalingPolicies`: the threshold policies in 32-bit unsigned arithmetic.
- `StorageModel`, `StorageLocking`, `StorageLinear`, `RedisStorage`: the lock protocol on one string
  map. Every command may answer, throw without effect, or throw after taking effect. A client between
  two operations can call tryLock and unlock directly; one whose tryLock answered true is inside.
- `StateManager`: the encoding over the store with an abstract codec and the empty-string sentinel.
- `AsyncLoggerModel`, `AsyncLogger`, `RotatingFileLogger`: the two loggers with state of their own.
- `ChannelModel`, `RedisChannel`, `Delivery`: subscriptions, and the channel composed with its pool.
- `Sequences`: counting, summing and flattening of sequences.

## Where the documentation and the code disagree

- docs/THREAD_POOL.md:93 promises a minimum of one worker. The code does not keep it: a second and a
  third kill token can be sent while earlier victims are finished but not yet reaped.
  With the default policies a second token suffices (`PoolMinimum.DefaultMinimumCanFail`), with
  policies that fire only above two workers a third one (`PoolMinimum.MinimumCanFail`), and
  `PoolMinimum.MinimumWorkers` shows that a scale-down policy firing only above `m` workers keeps a
  worker in every state exactly when `m >= 3`.
- docs/THREAD_POOL.md:347 promises guaranteed task execution. `PoolShutdown.TasksCanBeLost` is a run
  that loses a task; `PoolShutdown.StrandedIffUnsettled` gives the exact condition, as a predicate on
  the state when the manager has left its loop, `PoolShutdown.ShutdownStrandsIffUnsettled` the
  same at a call of shutdown between manager passes or in a sweep, and `PoolShutdown.ShutdownWithReserve`
  a sufficient one at any call.
- The storage relies on the reserved prefix `lock:` without checking it, and on the public `unlock` being
  called by owners only. In runs where nobody unlocks a key under another client, mutual exclusion holds
  for a set of user keys if and only if none of them is the lock entry of another
  (`StorageLocking.ExclusionIffLockSafe`; keys without the prefix satisfy this), and an unlock under
  another client, and no other, lets two clients in (`StorageLocking.UnlockBreaksIffForeign`,
  `ForeignUnlockRun`).
- A lock command that throws can leave a lock behind that no operation ever removes: exactly a SETNX that
  took effect and threw, or an unlock of the owner whose DEL failed (`StorageLocking.LockBalance`,
  `ThreeStepLeak`, `LeakedForever`). Only a direct call of `unlock` ends it (`StorageLinear.UnlockEndsLeak`).
- A subscribe whose loop over the channels throws leaves running_ up without a consume thread; later
  subscribes succeed and nothing is ever delivered (`ChannelModel.DeafAfterThrownStart`).
- A log file that cannot be opened silences the rotating logger for good, unless the header alone
  reaches the size limit (`RotatingFileLoggerModel.FailedOpenSilences`).

## Model

| member | source | states |
|---|---|---|
| PoolInvariants.ExactlyOnceFifo | src/thread/ThreadPool.cpp:66-76 | in every run tasks leave the queue in submission order and each popped task is completed or in execution exactly as often as it was popped, also when tasks throw and across scaling |
| PoolInvariants.TokenAccounting | src/thread/ThreadPool.cpp:57-59 | with each load and swap a step of its own, at most one kill token is out, a worker swaps only the value 1, and tokens issued are the one outstanding plus the workers gone by token |
| PoolInvariants.SwapsFailOnlySpuriously | src/thread/ThreadPool.cpp:57-59 | in every run a swap on the kill token takes or sends one exactly if it does not fail spuriously: none is lost to another thread |
| PoolInvariants.InvStep | src/thread/ThreadPool.cpp:48-164 | every step of manager, workers and clients keeps mutex, vector, token, queue and shutdown invariants together |
| PoolScaling.WorkerCap | src/thread/ThreadPool.cpp:94-134 | workerCount, vector length and unjoined threads agree in every run, no live worker is outside the vector, and a cap kept by each consulted scale-up policy caps them all |
| PoolScaling.OverkillBound | src/thread/ThreadPool.cpp:98-134 | outstanding tokens plus killed but unjoined workers number at most three, and at most two outside a reap sweep |
| PoolScaling.SweepLeavesRecent | src/thread/ThreadPool.cpp:121-133 | a full sweep leaves only kills of the same manager pass, because finished is stored under the mutex |
| PoolScaling.TokenLeaves | src/thread/ThreadPool.cpp:111-119 | with scale-down policies that fire only above m workers, an issued token leaves at least m - 2 workers that no token takes |
| PoolMinimum.MinimumWorkers | docs/THREAD_POOL.md:87-94 | in every state of every run whose consulted scale-down policies fire only above m workers, once a worker was started and while the pool runs, more workers are at work than tokens are out, if and only if m >= 3 |
| PoolMinimum.MinimumCanFail | src/thread/ThreadPool.cpp:111-133 | a running pool with three threads in its vector and none at work is reachable |
| PoolMinimum.DefaultMinimumCanFail | docs/THREAD_POOL.md:87-94 | a run that never calls setScaleUp or setScaleDown ends with the pool running, two threads in its vector and none at work |
| PoolShutdown.WorkShrinks | src/thread/ThreadPool.cpp:137-152 | after the manager loop each worker step and each join uses up a measure, failed swaps included, and no other step but a new task changes it |
| PoolShutdown.BoundedWork | src/thread/ThreadPool.cpp:137-152 | so a bounded number of worker steps and joins is left under every scheduler |
| PoolShutdown.NotStuck | src/thread/ThreadPool.cpp:139-152 | while a thread is unjoined, a worker can step or every thread left is ready to be joined |
| PoolShutdown.CanFinish | src/thread/ThreadPool.cpp:137-155 | from every state of the drain phase the manager can be brought to return |
| PoolShutdown.DrainOnShutdown | docs/THREAD_POOL.md:320-347 | if unexited workers outnumber tokens or one left by the shutdown branch when the manager leaves its loop, and no task came late, then on return every submitted task has completed exactly once |
| PoolShutdown.ShutdownWithReserve | docs/THREAD_POOL.md:320-347 | if at the call of shutdown the unexited workers outnumber the token that is out and one more, and no task is added afterwards, then on return every submitted task has completed exactly once |
| PoolShutdown.ShutdownStrandsIffUnsettled | src/thread/ThreadPool.cpp:97-155 | called while the manager is at its loop test or in a sweep, shutdown can leave a task queued, without any further task, if and only if the state at the call is not settled |
| PoolShutdown.StrandedIffUnsettled | src/thread/ThreadPool.cpp:57-72 | a continuation that returns with a task still queued exists if and only if the drain-phase state is not settled |
| PoolShutdown.TasksCanBeLost | src/thread/ThreadPool.cpp:97-155 | shutting down before the first pass returns with the task still queued |
| PoolService.FrontCanPopIffServed | src/thread/ThreadPool.cpp:48-72 | in every reachable state with a queue the workers alone, without a spurious failure, can pop the front task if and only if undecided workers outnumber tokens or one is past its token test |
| PoolWaiting.EmptyRoundIsSpurious | src/thread/ThreadPool.cpp:52-59 | in every run a worker wakes only with a task, a token or the pool stopped, and one that then finds the pool running and the queue empty has just lost a token to a spurious failure |
| PoolGrowth.SampleDecides | src/thread/ThreadPool.cpp:97-114 | a pass starts a worker, or else goes on to offer a token, exactly as the policies say of the queue size at its sample, whatever has happened to the queue since |
| PoolGrowth.ShrinkSweeps | src/thread/ThreadPool.cpp:111-133 | a pass that is to shrink the pool sweeps the vector from its start, whether or not a token is still out |
| PoolGrowth.DefaultWorkerCap | include/thread/ThreadPool.h:33-40 | a pool that keeps its default policies never has more than ten workers |
| PoolGrowth.DefaultComesToRest | include/thread/ThreadPool.h:33-40 | and while its queue is frozen at n tasks manager passes bring it from any fewer workers to min(10, ceil(n / 10)), where a further pass changes nothing |
| ThreadPoolObject.ThreadPool.AddTask | src/thread/ThreadPool.cpp:157-164 | appends the task to the queue and to the submissions, and is one step of the run |
| ThreadPoolObject.ThreadPool.ManagerPass | src/thread/ThreadPool.cpp:97-135 | under any interference the manager's own steps of one pass are exactly those of one of six ways through it, with the vector each way leaves; a pass that sweeps goes over the whole vector and joins every thread finished before it; it is held up only at a taken mutex or at a thread that has not returned |
| ThreadPoolObject.ThreadPool.Reap | src/thread/ThreadPool.cpp:121-133 | the erase-while-iterating loop looks at each worker of the vector once and in order, joins and erases the finished ones, all those finished earlier included, keeps the others in order, ends at the loop test it belongs to, and is held up only at a finished worker whose thread has not returned |
| ThreadPoolObject.ThreadPool.ManagerFunction | src/thread/ThreadPool.cpp:83-155 | its own steps are those of passes, the last of which found the flag down, of drain sweeps and of the last count; short of that it is out of turns or held up; when it returns all threads are joined and, from a settled exit without late tasks, every submitted task has run exactly once |
| ThreadPoolObject.ThreadPool.WorkerFunction | src/thread/ThreadPool.cpp:48-81 | its own steps are those of its rounds, each one of four ways through the loop; short of leaving it is out of rounds, or the mutex is taken, or the pool runs with an empty queue and no token; it goes round empty-handed only after a compare-and-swap that failed spuriously, and left alone on an idle pool not at all; it leaves in its last round only, by a token or from a stopped pool with an empty queue |
| ThreadPoolObject.ThreadPool.TakeToken | src/thread/ThreadPool.cpp:58-59 | the weak compare-and-swap takes one token or changes nothing |
| ScalingPolicies.NoThrash | include/thread/ThreadPool.h:33-40 | scaling up by one is never followed by scaling down, nor the reverse, at a frozen queue if and only if twice the lower threshold is at most the upper plus one (or the cap is at most one) |
| ScalingPolicies.ThresholdsInUse | include/thread/ThreadPool.h:33-40 | the installed policies of the default pool and of the channel ask for one more exactly above ten tasks a worker and below ten (five) workers, for one fewer exactly below three tasks a worker and above one worker, never both, and neither undoes the other at once |
| ScalingPolicies.IterationSettles | src/thread/ThreadPool.cpp:103-111 | iterating the policies at a frozen queue comes to rest within cap passes, moving one way only, in the stable band, at the cap, or at one worker |
| StorageLocking.ExclusionIffLockSafe | src/client/RedisStorage.cpp:15-42 | in every run in which nobody unlocks a key under another client, with operations and direct calls of tryLock and unlock and whatever throws, at most one client is inside per key, if and only if no user key is the lock entry of another |
| StorageLocking.UnlockBreaksIffForeign | src/client/RedisStorage.cpp:33-42 | after any such run on such keys, a direct call of unlock makes it possible for two clients to get inside for one key if and only if it deletes the lock entry of a key for which another client is inside |
| StorageLocking.ForeignUnlockRun | src/client/RedisStorage.cpp:15-42 | on any key: one client is inside, a second one calls unlock and tryLock, and two are inside |
| StorageLocking.PrefixFreeIsSafe | src/client/RedisStorage.cpp:18 | keys that do not start with the reserved prefix are such a set |
| StorageLocking.ReservedPrefix | src/client/RedisStorage.cpp:18 | for every k the keys k and "lock:" + k together are not such a set |
| StorageLocking.LockBalance | src/client/RedisStorage.cpp:15-75 | locks taken by operations less those they gave back is the number of operations inside; and in a quiescent store a key that was locked at first, or left locked by a SETNX that found no entry and threw after taking effect or by a failed unlock of its owner, is locked unless its entry was deleted since, and any other key is locked only while somebody has it by a direct tryLock (and then always, unless somebody unlocked a key under another client) |
| StorageLocking.QuiescentIsUnlocked | src/client/RedisStorage.cpp:97-145 | if lock commands do not throw, a clean store is clean again once all calls have returned, but for keys held by a direct tryLock |
| StorageLocking.ThreeStepLeak | src/client/RedisStorage.cpp:15-31 | call, a SETNX that throws after taking effect, return: the store is quiescent, the key is locked, and until somebody calls unlock on it no run of any clients sets it |
| StorageLocking.LeakedForever | src/client/RedisStorage.cpp:26-41 | in any run, once a key is locked with nobody inside for it, and up to the first direct unlock of the key that takes effect, no operation of any client changes it |
| StorageLinear.Linearizable | src/client/RedisStorage.cpp:55-145 | every interleaving refines an atomic map: each call has at most one effect, at its SET, DEL or GET, between call and return; each effect replies by the last one that wrote or erased its key (a read its value or the empty string, an erase whether it was there, write and update true), a call replies what its effect does, or failure if it had none or its command threw, and no change is unowned |
| StorageLinear.MutationReplies | src/client/RedisStorage.cpp:55-145 | in every run a finished write or update has answered true exactly if its SET had effect and answered, a finished erase exactly if its DEL did and the key had been written and not erased since |
| StorageLinear.RealTimeOrder | src/client/RedisStorage.cpp:55-145 | cut any run where one call has returned and the client of another, which returns later, is between two calls: the effect of the first comes before that of the second |
| StorageLinear.SoloChange | src/client/RedisStorage.cpp:55-145 | unless somebody unlocked a key under another client, a mutating call that runs alone and whose commands answer goes through if and only if nobody is inside for its key and the lock has not leaked: it makes the change, leaves the key unlocked and answers true, or for an erase whether the key was there; else it answers false and changes nothing |
| StorageLinear.SoloIffUnlocked | src/client/RedisStorage.cpp:55-145 | the same from any state whatever, if and only if the lock entry is absent |
| StorageLinear.UnlockEndsLeak | src/client/RedisStorage.cpp:33-42 | a direct unlock ends a leak: after it the next operation on the key makes its change and answers true, or for an erase whether the key was there |
| StorageLinear.StepRefines | src/client/RedisStorage.cpp:57-75 | exactly a SET or DEL that did not fail and a GET that answered have an effect; a command without one, denied ones included, leaves the user data alone and any other makes exactly the change of its operation |
| RedisStorageObject.RedisStorage.Change | src/client/RedisStorage.cpp:55-145 | write, update and erase under any interference and faults: one lock attempt, and if acquired one mutation and exactly one unlock; write and update answer true exactly if they got the lock and the mutation answered, erase exactly if besides the key was there |
| RedisStorageObject.RedisStorage.TryLock | src/client/RedisStorage.cpp:15-31 | the lock of an operation: acquired exactly when SETNX answered and the entry was absent; an exception counts as denied |
| RedisStorageObject.RedisStorage.LockDirectly | include/client/RedisStorage.h:21-24 | tryLock called by a client: true exactly when SETNX answered and the entry was absent, and then the client is inside |
| RedisStorageObject.RedisStorage.UnlockDirectly | include/client/RedisStorage.h:21-24 | unlock called by a client: deletes the entry whoever put it there, and no other client learns of it |
| RedisStorageObject.RedisStorage.ReadKey | src/client/RedisStorage.cpp:77-95 | one GET without a lock, and its result is the recorded reply |
| RedisStorageObject.RedisStorage.IsLocked | src/client/RedisStorage.cpp:44-53 | false on an exception; else true only while a client is inside for the key or its lock has leaked, and exactly then unless somebody unlocked a key under another client |
| StorageLinear.LastWrittenIsLookup | src/core/StateManager.cpp:32-59 | looking a key up in the atomic map is finding the last write not erased since |
| StateManagerModel.SentinelExact | src/core/StateManager.cpp:80-89 | "Key not found" is reported exactly for a key absent or holding the empty string at the GET, and always when the GET threw |
| StateManagerModel.RoundTrip | src/core/StateManager.cpp:80-100 | with only encodings stored, an error-free read reports "Key not found" exactly for an absent key and otherwise the value of the last effective write |
| AsyncLoggerModel.NoLostWakeUp | examples/logging/advanced_logging_example.cpp:288-302 | a blocked worker has nothing to do or a notification is still to come, in every run |
| AsyncLoggerModel.ExactSuffixes | examples/logging/advanced_logging_example.cpp:231-252 | forwarded messages, batch and queue are the last max_queue_size messages of each drain generation in push order, and the queue keeps its bound |
| AsyncLoggerModel.DestructorDrains | examples/logging/advanced_logging_example.cpp:215-229 | from the stop flag on every run is bounded, can only end with the join, and then batch and queue have been forwarded in order |
| AsyncLoggerObject.AsyncLogger.Log | examples/logging/advanced_logging_example.cpp:231-275 | both log overloads: from getting the mutex on, lock, push, notify and release are the only steps of any log call and the message is the only one pushed; short of that the mutex is taken |
| AsyncLoggerObject.AsyncLogger.PushLocked | examples/logging/advanced_logging_example.cpp:235-248 | drops the oldest message of a full queue, appends, and remembers a late message |
| AsyncLoggerObject.AsyncLogger.ForwardAll | examples/logging/advanced_logging_example.cpp:309-317 | hands the whole batch to the base logger in order while others log |
| AsyncLoggerObject.AsyncLogger.ProcessLogs | examples/logging/advanced_logging_example.cpp:288-319 | the worker's own steps are those of its rounds, and the base logger receives their batches and nothing else; short of returning it is out of rounds or waits; it returns in its last round only, with the stop flag up and an empty queue, unless a message came late |
| AsyncLoggerObject.AsyncLogger.Destroy | examples/logging/advanced_logging_example.cpp:215-229 | lock, raise, release, notify, join; it is held up only at a taken mutex, or at the join with the flag up and the worker not returned; after the join, without late messages, the base logger has received exactly what each generation retains |
| RotatingFileLoggerModel.RingAgreesWithLog | examples/logging/advanced_logging_example.cpp:84-113 | if every open succeeds the files in ring order are the last min(rotations, max_files) generations, a suffix of all lines written, headers included |
| RotatingFileLoggerModel.GenerationSizes | examples/logging/advanced_logging_example.cpp:48-70 | every closed generation reaches the size limit, and none of more than two lines did so before its last |
| RotatingFileLoggerModel.IndexCountsRotations | examples/logging/advanced_logging_example.cpp:84-113 | in every run, whether or not files opened, the file index is the number of rotations tried modulo max_files |
| RotatingFileLoggerModel.SilentAfterFailedOpen | examples/logging/advanced_logging_example.cpp:48-70 | without an open file some later calls change anything at all if and only if the size counted for the header reaches the limit |
| RotatingFileLoggerModel.FailedOpenSilences | examples/logging/advanced_logging_example.cpp:84-113 | a failed open, at construction or at any rotation of any run, silences the logger for good if and only if its header is below the limit |
| RotatingFileLoggerModel.RotatingFileLogger.RotateLogFile | examples/logging/advanced_logging_example.cpp:84-113 | advances the index round the ring, truncates the new file and writes the header if it opened |
| RotatingFileLoggerModel.RotatingFileLogger.Log | examples/logging/advanced_logging_example.cpp:48-70 | rotates first when the limit is reached, then appends if a file is open |
| ChannelModel.AgreementStep | src/client/RedisChannel.cpp:40-121 | a call or event keeps "running means subscribed to exactly the registered channels and consuming" if and only if it is not a re-subscribe loop that throws nor an UNSUBSCRIBE that throws after taking effect; and a running channel goes on running if and only if it is not a consume error, a SUBSCRIBE that throws, or an unsubscribe that leaves nothing registered |
| ChannelModel.SubscriptionAgreement | src/client/RedisChannel.cpp:40-121 | the agreement holds in every run without those two, and the channel then runs exactly if by the events it listens |
| ChannelModel.ExactlyAsExpected | src/client/RedisChannel.cpp:40-121 | in every run, whatever threw, the callbacks, the flag, the consume thread and the tasks delivered are those that a reference definition computes from the events alone |
| ChannelModel.ListensUntil | src/client/RedisChannel.cpp:58-115 | in every run a channel that runs and consumes goes on doing both unless a consume error comes, a SUBSCRIBE throws or an unsubscribe leaves no channel registered by the history; then it does neither |
| ChannelModel.SilentAfterConsumeError | src/client/RedisChannel.cpp:214-220 | in every run, after a consume error and until a subscribe starts the channel again, nothing is delivered; and that subscribe leaves it consuming with the server subscribed to exactly the channels registered by the history |
| ChannelModel.Recovery | src/client/RedisChannel.cpp:40-75 | in every run, whatever threw before, a successful subscribe re-establishes the agreement if and only if the channel had stopped, or consumes and the server misses no other registered channel; then the server is subscribed to exactly the channels registered by the history, and stays so in step |
| ChannelModel.DeafAfterThrownStart | src/client/RedisChannel.cpp:180-191 | in every run, after a start whose subscribe loop threw, and until a SUBSCRIBE throws or nothing is registered any more, there is no consume thread and nothing is delivered, however many later subscribes succeed |
| ChannelModel.DeafStep | src/client/RedisChannel.cpp:51-121 | a channel that runs without a consume thread stays so at every step but those, and no step delivers anything |
| ChannelModel.DeafRun | src/client/RedisChannel.cpp:180-191 | the very first subscribe can leave the channel deaf, and a second one that succeeds does not help |
| ChannelModel.SilentAfterUnsubscribe | src/client/RedisChannel.cpp:77-121 | in every run, after a channel was unsubscribed and until it is subscribed again no message arriving for it is delivered, whatever else is called or fails |
| Delivery.EndToEnd | src/client/RedisChannel.cpp:164-170 | the pool is given exactly the messages whose channel was registered on arrival, each with the latest callback, and pops them in arrival order, each at most once |
| Delivery.EveryDueMessageRuns | src/client/RedisChannel.cpp:164-170 | after a settled shutdown without late messages every message due has been executed exactly once |
| Delivery.ChannelWorkerCap | src/client/RedisChannel.cpp:10-20 | the channel's pool never has more than five workers although it starts with the default cap of ten |
| Delivery.ChannelComesToRest | src/client/RedisChannel.cpp:10-20 | from every joint state between two passes, while the queue is frozen at n tasks, passes bring the channel's pool from any fewer workers to min(5, ceil(n / 10)), so a message that is due gets a worker |
| RedisChannelObject.RedisChannel.Subscribe | src/client/RedisChannel.cpp:40-75 | registers the callback first and then does what the model's event does, with the outcome that the throwing commands determine |
| RedisChannelObject.RedisChannel.SubscribeAll | src/client/RedisChannel.cpp:180-187 | the loop over the table subscribes every channel, or those before the throw and perhaps the one that threw |
| RedisChannelObject.RedisChannel.Unsubscribe | src/client/RedisChannel.cpp:77-121 | all channels, one channel or none, as the model's event with the outcome that the throwing commands determine; the channel goes on running and consuming exactly as long as something is registered; an escaping exception leaves the callback registered |
| RedisChannelObject.RedisChannel.OnMessage | src/client/RedisChannel.cpp:164-170 | queues exactly one task for a registered channel and none otherwise |
| RedisChannelObject.RedisChannel.OnConsumeError | src/client/RedisChannel.cpp:214-220 | lowers the flag and ends the consume thread, and leaves the callbacks registered |

## Left out

- The pool's condition variable: a wait is "await the predicate". In the code a notification can fall between a worker's predicate test and its blocking, because running_ and killThread change without the mutex, so a wake-up can be lost; neither the loss nor its consequences for liveness is modelled.
- Tasks that do not terminate, and exceptions that are not std::exception, which end the process.
- Formal data races: the manager consults the policies without the mutex; here a policy is read in one step.
- Real time: the sleeps of the manager and the socket timeouts are arbitrary scheduling.
- ThreadPoolObject.ThreadPool.ManagerFunction: is cut off after a given number of turns or where the thread would still wait, because a loop that polls need not end; the contract says which of the two it was, and what it says of the return holds for every number of turns. The same holds of WorkerFunction, ProcessLogs and the other methods with a `blocked` result.
- PoolShutdown.BoundedWork: bounds worker steps and joins, not the idle scans of the manager's polling loop, whose number depends on the scheduler.
- PoolShutdown.ShutdownWithReserve: is sufficient only, because what a pass in progress still does depends on the policies it consults after the call.
- The call and return of a direct tryLock or unlock: each is the one step of its command.
- Commands that take effect only after the caller has seen them time out, server restarts, and writers that do not use the lock.
- The Redis server, the client library, connection handling and its retry loop: network I/O.
- JSON parsing and printing: the codec is any pair of functions that invert each other, with non-empty encodings; StateObj types and cloning are not modelled.
- Exceptions thrown by a logger, and log output other than that of the two modelled loggers.
- AsyncLoggerObject.AsyncLogger.Log: needs max_queue_size >= 1, because with 0 the source erases from an empty vector, which C++ leaves undefined; likewise the rotating logger needs max_files >= 1, since it computes an index modulo max_files.
- RedisStorageObject.RedisStorage: the object is built for a set of user keys none of which is the lock entry of another; the transition system also runs on other keys, where mutual exclusion fails.
- RedisStorageObject.RedisStorage.Change: covers write, update and erase in one method, since they differ in one command only.
- Memory order: atomics are sequentially consistent, as the source's default order makes them.
- RedisChannel races: API calls, message arrivals and consume errors are atomic steps; the unlocked accesses to the callback table, the replacement of a subscriber in use and the wait for an old consume thread are not modelled. A consume thread ends as soon as running_ is down.
- RedisChannel::publish, the singleton and the destructor (unsubscribe from all, then a join): forwarding only.
- DefaultLogger, LoggerFactory, FilteredLogger, PerformanceLogger, the demos and the build files: forwarding, formatting or output with only easy properties.
