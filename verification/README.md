# Verified models of the concurrent components

This project models the components of the repository that are real protocols:
the semaphore ring queue, the thread pool with its singleton, the process pool,
the bounded blocking queue, the reconnecting client, the chat server that joins
registration, thread pool and broadcast, and the dictionary loader.

`dafny verify dfyconfig.toml` checks everything.

## How the models are built

**Protocols.** Each `*Protocol` module is a transition system. A state holds the
fields of the source's class, one program counter per thread or process, and
histories (items stored, tasks enqueued, codes sent, and so on). `Step` takes one
atomic action, or is `None` where the thread is blocked; `Exec` runs a whole
schedule, in which choosing a blocked thread changes nothing. A theorem about
`Exec(Init(...), sched)` for all `sched` is therefore a statement about every
interleaving, of any number of threads, channels and users and any capacity.

- A mutex is its owner, a semaphore its permit count.
- `pthread_cond_wait` releases the mutex and enters the wait set in one step; a
  woken thread needs the mutex back before it goes on. Wakeups may be spurious,
  and a signal wakes at least one waiting thread, perhaps several (IEEE Std
  1003.1, System Interfaces, pthread_cond_wait and pthread_cond_signal).
- Memory is sequentially consistent.
- A pipe is a bounded FIFO, `fork` copies the descriptor table, `pipe` takes the
  two lowest free numbers, and `read` returns end of file when the pipe is empty
  and no process holds its write end.

**Classes.** The `*Class` modules, `SshClient`, `ChatServer` and `Dict.Dict` hold
the source's classes with its own fields and methods. In `BlockQueue`,
`ThreadPool` and `ProcessPool` a ghost `log` records the schedule that led to the
present fields; each assignment is accompanied by the protocol action it
performs, and wherever the thread can be preempted or blocked it calls `Block`
(`Others` for the parent process), whose contract lets everybody else take any
steps. So the sequential code is proved to follow the protocol under arbitrary
interference. The other classes have one caller at a time.

## What the proofs show about the code

- Both guarded-signal designs (signal only if the sleeper counter is positive)
  lose no wakeup: without new calls, every run ends after a bounded number of
  steps with all tasks executed while a worker is alive, and with only such calls
  left on the blocking queue as an empty or full queue keeps waiting.
- `ThreadPool::Enqueue` does not look at `_isrunning`: a task enqueued after the
  last worker has exited is accepted and never executed, and every pool has runs
  that get there. A queued task can still be served exactly when some worker is
  alive or yet to be created. After Stop, all complete runs execute everything
  exactly when no caller of Enqueue still waits for the mutex and no task is
  queued, or about to be pushed, with all workers gone.
- `Instance` publishes the pointer before `Start`, so a caller may hold a pool
  that is not started yet; it is always the one and only pool.
- The process pool's `Quit` closes and waits channel by channel. That does not
  hang because every child closes the write ends it inherited: a child at the end
  of its closed channel is blocked exactly while a younger child has not got
  that far.
- The ring queue and the blocking queue are free of deadlock exactly when their
  capacity is positive.
- The reconnecting client never closes the socket of a conversation that ended
  DISCONNECTED: `ReConnect` overwrites the descriptor. From the network's answers:
  a client that returns has closed every socket exactly if the first
  `_max_retries` + 2 connects were refused or its first conversation ended by a
  failed write.
- A list of dictionary entries is what its printed file loads as exactly if no
  key contains `": "` and no key or value contains a newline.
- While a broadcast is in progress, users before its position are one message
  ahead of those behind it; apart from that message, of any two users the later
  registered has always received a suffix of what the other has.

## Model

| member | source | states |
|---|---|---|
| RingProtocol.AlwaysInvariant | test_sem01/RingQueue.hpp:15-52 | After every schedule of any number of producers and consumers: lock ownership, permit conservation (blank + data + threads in transit = cap), step indices and the last cap items in their slots |
| RingProtocol.StepKeepsInvariant | test_sem01/RingQueue.hpp:26-52 | Each single action of any thread keeps all of that |
| RingProtocol.RunKeepsInvariant | test_sem01/RingQueue.hpp:26-52 | Any schedule from any good state keeps it |
| RingProtocol.SlotExclusion | test_sem01/RingQueue.hpp:26-52 | Although producers and consumers use different mutexes, a storing producer and a loading consumer are at different slots; the consumer's slot holds the oldest unread item, and the item being overwritten has been read |
| RingProtocol.OverwritesOldest | test_sem01/RingQueue.hpp:33-34 | The next slot to be written holds the item stored cap items ago |
| RingProtocol.StepRefinesFifo | test_sem01/RingQueue.hpp:26-52 | Each step appends the producer's item to an unbounded FIFO queue, hands its first item to the consumer, or leaves it alone |
| RingProtocol.ItemsAreKept | test_sem01/RingQueue.hpp:26-52 | The item stored is the one Enqueue was called with, and Pop returns the item it loaded, whatever others do |
| RingProtocol.DeliversInOrder | test_sem01/RingQueue.hpp:30-51 | The k-th item read is the k-th written; at most cap are unread, each in the slot the consumers will reach for it, through every wraparound |
| RingProtocol.StepIndices | test_sem01/RingQueue.hpp:33-48 | With the mutex free each step index is its count mod cap; the value cap appears only between the increment and the `%=` |
| RingProtocol.QuietPermits | test_sem01/RingQueue.hpp:20-21 | With nobody inside, the semaphores count the filled and the free slots |
| RingProtocol.NeverStuck | test_sem01/RingQueue.hpp:26-52 | With one producer and one consumer at least, some thread can always step |
| RingProtocol.DeadlockFreeIff | test_sem01/RingQueue.hpp:15-52 | For any positive numbers of producers and consumers: no schedule deadlocks if and only if cap is positive |
| RingProgress.ProducerBlockedIff | test_sem01/RingQueue.hpp:26-38 | In every reachable state any producer is kept waiting if and only if it is at P with no blank permit or at Lock with its mutex held |
| RingProgress.ConsumerBlockedIff | test_sem01/RingQueue.hpp:40-52 | The same for any consumer, with the data permits and the other mutex |
| RingProgress.CalledIsStored | test_sem01/RingQueue.hpp:26-38 | Along any schedule each producer stores exactly the items of its calls, in order, up to the call under way |
| RingProgress.LoadedIsReturned | test_sem01/RingQueue.hpp:40-52 | Along any schedule each consumer's calls return exactly the items that it loads, in order, up to the call under way |
| RingProgress.StepWork | test_sem01/RingQueue.hpp:26-52 | Every step inside a call uses up exactly one of the six that passing the semaphore brings |
| RingProgress.CallsEnd | test_sem01/RingQueue.hpp:26-52 | Once past its semaphore every call ends: each run of the calls under way has exactly its number of steps, and one that cannot go on leaves nobody inside and exact permit counts |
| RingProtocol.RoomToStore | test_sem01/RingQueue.hpp:28 | A blank permit in hand means fewer than cap unread items |
| RingProtocol.ItemToLoad | test_sem01/RingQueue.hpp:42 | A data permit in hand means an unread item |
| RingProtocol.StoreKeepsContents | test_sem01/RingQueue.hpp:33 | Storing overwrites no item that is still needed |
| RingProtocol.ProducerKeepsPermits | test_sem01/RingQueue.hpp:26-38 | No producer step creates or loses a permit |
| RingProtocol.ConsumerKeepsPermits | test_sem01/RingQueue.hpp:40-52 | Nor does a consumer step |
| RingQueueClass.RingQueue.constructor | test_sem01/RingQueue.hpp:15-22 | A new queue of any capacity, zero included, is empty and in the protocol's initial state |
| RingQueueClass.RingQueue.Enqueue | test_sem01/RingQueue.hpp:26-38 | Appends the item exactly if there is room, and its fields follow the seven protocol actions |
| RingQueueClass.RingQueue.Pop | test_sem01/RingQueue.hpp:40-52 | Returns and removes the first item exactly if there is one |
| RingQueueClass.EnqueueTrace | test_sem01/RingQueue.hpp:26-38 | The combined effect of the seven actions of one Enqueue |
| RingQueueClass.PopTrace | test_sem01/RingQueue.hpp:40-52 | The combined effect of the seven actions of one Pop |
| RingQueueClass.QuietState | test_sem01/RingQueue.hpp:15-52 | Between calls the fields determine the queue: data permits are its length and the consumer's step is at its first item |
| ThreadPoolProtocol.AlwaysInvariant | 4_EchoTcpServer/ThreadPool.hpp:24-137 | In every interleaving of workers, Enqueue, Start and Stop, with spurious and multiple wakeups: lock ownership, exact sleeper counter, no lost wakeup, lifecycle, and tasks conserved |
| ThreadPoolProtocol.StepKeepsInvariant | 4_EchoTcpServer/ThreadPool.hpp:24-137 | Each single action keeps all of that |
| ThreadPoolProtocol.NoLostWakeup | 4_EchoTcpServer/ThreadPool.hpp:31-46 | With the mutex free the counter is waiting plus woken, and while anyone waits there are at least as many woken workers as queued tasks; a counter of zero means nobody waits, so the skipped signal is harmless |
| ThreadPoolProtocol.WakeSums | 4_EchoTcpServer/ThreadPool.hpp:133-135 | A signal moves at least one waiting worker to the woken ones and a broadcast all, and nobody leaves the counter |
| ThreadPoolProtocol.WorkerKeepsConservation | 4_EchoTcpServer/ThreadPool.hpp:44-49 | A worker's step keeps enqueued = dequeued ++ queue and dequeued = executed + in hand |
| ThreadPoolProtocol.CanServe | 4_EchoTcpServer/ThreadPool.hpp:31-46 | From any reachable state with a queued task and a worker that is alive or yet to be created, also before and during Start, there is a run that takes the task, with no spurious wakeup and no new call |
| ThreadPoolProtocol.ExitedForever | 4_EchoTcpServer/ThreadPool.hpp:41 | Once all workers have exited nothing is taken or executed any more, whatever happens |
| ThreadPoolProtocol.ServedIffWorkerAlive | 4_EchoTcpServer/ThreadPool.hpp:130-137 | In any reachable state a queued task can still be served if and only if some worker has not exited |
| ThreadPoolProgress.ComesToRest | 4_EchoTcpServer/ThreadPool.hpp:24-137 | From any reachable state of any pool, stopped or not, every run without new calls and spurious wakeups is bounded; one that cannot go on has completed Start and all calls and, unless all workers have exited, has executed everything enqueued exactly once |
| ThreadPoolProgress.LessWork | 4_EchoTcpServer/ThreadPool.hpp:24-137 | Each such step decreases one measure, in which a signal or broadcast still to come pays for the workers it may wake |
| ThreadPoolProgress.WorkerBlockedIff | 4_EchoTcpServer/ThreadPool.hpp:24-53 | Any started worker is kept from its next action if and only if it sleeps, waits for the held mutex, or has exited |
| ThreadPoolProgress.ClientBlockedIff | 4_EchoTcpServer/ThreadPool.hpp:116-137 | Any call under way is kept from its next action if and only if it waits for the held mutex |
| ThreadPoolProgress.CallsBegin | 4_EchoTcpServer/ThreadPool.hpp:102-131 | Enqueue can be called at any time, Stop once Start is through; the caller is then before Lock and nothing else has changed |
| ThreadPoolProgress.WhoIsWoken | 4_EchoTcpServer/ThreadPool.hpp:118-135 | After a push nobody is woken if the counter is zero, otherwise any choice that includes a waiting worker if there is one; after Stop all; and any waiting worker may wake by itself |
| ThreadPoolShutdown.GracefulShutdown | 4_EchoTcpServer/ThreadPool.hpp:27-50 | At all times FIFO and conservation; when any worker has exited, all that was enqueued before Stop is dequeued; when all have, executed equals dequeued as multisets |
| ThreadPoolShutdown.StoppedAfterStop | 4_EchoTcpServer/ThreadPool.hpp:116-121 | After Stop's critical section nobody is in the wait set |
| ThreadPoolShutdown.StoppedForever | 4_EchoTcpServer/ThreadPool.hpp:33-38 | And nobody ever enters it again, on any schedule |
| ThreadPoolShutdown.GoDecreases | 4_EchoTcpServer/ThreadPool.hpp:31-50 | Once _isrunning is cleared, every step of any thread but a new call decreases one measure |
| ThreadPoolShutdown.SomeoneGoes | 4_EchoTcpServer/ThreadPool.hpp:102-128 | Until all workers have exited and all calls have returned, some thread can step |
| ThreadPoolShutdown.DrainTerminates | 4_EchoTcpServer/ThreadPool.hpp:102-137 | From that moment, with whatever calls are under way, every run without new calls is bounded, and one that cannot go on has all workers exited, all calls returned, what was enqueued before Stop dequeued and every dequeued task executed once |
| ThreadPoolShutdown.ExecutesAllIff | 4_EchoTcpServer/ThreadPool.hpp:102-137 | After Stop has cleared _isrunning, every complete run executes everything ever enqueued if and only if no caller of Enqueue waits for the mutex and some worker is alive whenever a task is queued or about to be pushed |
| ThreadPoolShutdown.DrainExists | 4_EchoTcpServer/ThreadPool.hpp:124-128 | Such a complete run exists without spurious wakeups: Wait returns |
| ThreadPoolShutdown.EnqueueAfterExitIsLost | 4_EchoTcpServer/ThreadPool.hpp:130-137 | A task enqueued after the last exit is accepted, stays queued on every continuation and is never executed |
| ThreadPoolShutdown.OvertakenIsLost | 4_EchoTcpServer/ThreadPool.hpp:130-137 | A caller still waiting for the mutex after Stop can be overtaken by all workers: a complete run that loses its task |
| ThreadPoolShutdown.AllExitedIsReached | 4_EchoTcpServer/ThreadPool.hpp:91-128 | With any number of workers, Start, one Stop and a drain lead to a state in which all have exited |
| ThreadPoolShutdown.TasksCanBeLost | 4_EchoTcpServer/ThreadPool.hpp:91-137 | So every pool has a run after which an Enqueue is accepted and its task never executed |
| ThreadPoolClass.OthersLeave | 4_EchoTcpServer/ThreadPool.hpp:24-137 | All that other threads can do to a thread is wake it, on any schedule; they take and execute nothing in its name |
| ThreadPoolClass.TakenIsExecuted | 4_EchoTcpServer/ThreadPool.hpp:44-49 | Along any schedule each worker executes exactly what it takes out of the queue, in that order, up to the one task in its hand |
| ThreadPoolClass.CalledIsPushed | 4_EchoTcpServer/ThreadPool.hpp:130-137 | Along any schedule each client puts exactly the tasks of its calls into the queue, in that order, up to the call under way |
| ThreadPoolClass.ThreadPool.constructor | 4_EchoTcpServer/ThreadPool.hpp:55-70 | A new pool is not running, empty, and has no worker started |
| ThreadPoolClass.ThreadPool.HandlerTask | 4_EchoTcpServer/ThreadPool.hpp:24-53 | Under any interference the worker executes exactly the tasks it takes out of the queue, in that order, and these are the ones reported. It ends only by exiting, after the allowed number of tasks, where its next action is impossible, or after the allowed number of wakeups in a row with the pool running and nothing queued |
| ThreadPoolClass.ThreadPool.NextTask | 4_EchoTcpServer/ThreadPool.hpp:28-46 | The critical section ends with a task in hand, with the worker's exit, where its next action is impossible, or after the allowed number of wakeups with the pool running and nothing queued; so a queued task is taken |
| ThreadPoolClass.ThreadPool.Acquire | 4_EchoTcpServer/ThreadPool.hpp:31 | The worker owns the mutex, or cannot take it now |
| ThreadPoolClass.ThreadPool.Sleep | 4_EchoTcpServer/ThreadPool.hpp:35-37 | One wait: counted, asleep, and with the mutex again on return, or its next action is impossible |
| ThreadPoolClass.ThreadPool.Leave | 4_EchoTcpServer/ThreadPool.hpp:41 | The worker exits, and only this worker |
| ThreadPoolClass.ThreadPool.Take | 4_EchoTcpServer/ThreadPool.hpp:44-46 | The front task leaves the queue and is in this worker's hand |
| ThreadPoolClass.ThreadPool.RunTask | 4_EchoTcpServer/ThreadPool.hpp:49 | Executes that task once |
| ThreadPoolClass.ThreadPool.Enqueue | 4_EchoTcpServer/ThreadPool.hpp:130-137 | Under any interference this client has put exactly this task into the queue, once, or is still before Lock with the mutex held by another |
| ThreadPoolClass.ThreadPool.Push | 4_EchoTcpServer/ThreadPool.hpp:132-136 | With the mutex: the task goes to the back and the mutex is released |
| ThreadPoolClass.ThreadPool.Stop | 4_EchoTcpServer/ThreadPool.hpp:102-122 | The pool is stopped and nobody waits, or the call is still before Lock with the mutex held by another |
| ThreadPoolClass.ThreadPool.ClearAndBroadcast | 4_EchoTcpServer/ThreadPool.hpp:117-121 | Clears _isrunning, wakes all, leaves the tasks alone |
| ThreadPoolClass.ThreadPool.Start | 4_EchoTcpServer/ThreadPool.hpp:91-100 | On return every worker has been created, also with other threads running in between |
| ThreadPoolClass.ThreadPool.Join | 4_EchoTcpServer/thread.hpp:76-89 | Returns true exactly for a worker that has exited; exits are permanent |
| ThreadPoolClass.ThreadPool.Wait | 4_EchoTcpServer/ThreadPool.hpp:124-128 | Gets through if and only if all workers have exited, and then executed equals dequeued as multisets |
| PoolSingleton.OnePool | 4_EchoTcpServer/ThreadPool.hpp:75-88 | For any number of interleaved callers at most one pool is constructed and started, and all who return hold it; it is started unless its creator is between lines 81 and 82 |
| PoolSingleton.StepKeepsInvariant | 4_EchoTcpServer/ThreadPool.hpp:75-88 | Each step of a caller keeps what each other caller relies on |
| PoolSingleton.SomeCallerMoves | 4_EchoTcpServer/ThreadPool.hpp:78 | Until all callers have returned, one can step |
| PoolSingleton.CallerBlockedIff | 4_EchoTcpServer/ThreadPool.hpp:77-78 | A caller is kept waiting if and only if it saw no pool and the lock is held |
| PoolSingleton.EveryCallerReturns | 4_EchoTcpServer/ThreadPool.hpp:75-88 | Any run of the callers is bounded, and one that cannot go on has handed the one pool, constructed and started once, to every caller |
| PoolSingleton.ReturnedBeforeStart | 4_EchoTcpServer/ThreadPool.hpp:81-82 | A concrete schedule in which a caller gets the pool before it is started |
| ProcessPoolProtocol.PipeNumbers | test_ProcessPool/code.cpp:218-224 | While all write ends stay open, pipe() gives every read end the same number and every write end a new one |
| ProcessPoolProtocol.LowestFree | test_ProcessPool/code.cpp:220 | The descriptor is free and all lower ones are in use |
| ProcessPoolProtocol.OwnsExactly | test_ProcessPool/code.cpp:218-247 | Exactly which pipe ends a table holds, and under which numbers |
| ProcessPoolProtocol.ForkKeepsDescriptors | test_ProcessPool/code.cpp:226-240 | The child's copy has all older write ends, its own pair, and nothing else |
| ProcessPoolProtocol.ChildKeepsTable | test_ProcessPool/code.cpp:233-239 | Each close of a child removes exactly the write end meant |
| ProcessPoolProtocol.ParentKeepsDescriptors | test_ProcessPool/code.cpp:217-253 | Each parent step keeps every process's table as described, until Quit closes channel by channel |
| ProcessPoolTraffic.AlwaysInvariant | test_ProcessPool/code.cpp:46-253 | In every interleaving of parent and children: descriptors, exact delivery, round-robin shares and reaping order |
| ProcessPoolTraffic.StepKeepsInvariant | test_ProcessPool/code.cpp:46-253 | Each single step keeps all of that |
| ProcessPoolTraffic.DispatchSends | test_ProcessPool/code.cpp:204-215 | A dispatch passes both range checks and puts the code at the end of the selected channel's pipe and nowhere else |
| ProcessPoolTraffic.SendKeepsShares | test_ProcessPool/code.cpp:190-196 | The next channel in turn keeps all shares right |
| ProcessPoolTraffic.ShareNext | test_ProcessPool/code.cpp:190-196 | How the shares k / n and one for the first k mod n channels grow with k |
| ProcessPoolTraffic.ChildEffect | test_ProcessPool/code.cpp:46-68 | A child reads only from its own pipe, and leaves its loop only when that pipe is empty and its channel closed |
| ProcessPoolTraffic.ChildTrafficStep | test_ProcessPool/code.cpp:59-64 | Sent = executed ++ in hand ++ in the pipe is kept; no sent code is skipped as invalid |
| ProcessPoolTraffic.ParentIsWriter | test_ProcessPool/code.cpp:246 | Until Quit closes it, the parent's own write end keeps a pipe from ending |
| ProcessPoolShutdown.DescriptorOwnership | test_ProcessPool/code.cpp:155-247 | In every reachable state: the parent holds pipe i's write end exactly until Quit closes it, under channel i's number, and its read end only around the fork; child k holds its own read end until it exits, and exactly those write ends it has not closed yet, so none from its callback on |
| ProcessPoolShutdown.BlockedIff | test_ProcessPool/code.cpp:233-237 | A child at the end of its closed channel is blocked if and only if a younger child has not yet closed the inherited write end |
| ProcessPoolShutdown.Holder | test_ProcessPool/code.cpp:233-238 | Who can still hold the write end of a closed channel |
| ProcessPoolShutdown.ChildMoves | test_ProcessPool/code.cpp:46-57 | A child is blocked only at the read of an empty pipe with a writer |
| ProcessPoolShutdown.SomeoneMoves | test_ProcessPool/code.cpp:155-163 | Until Quit is through, some process can step; Wait is never stuck for ever |
| ProcessPoolShutdown.ParentBlockedIff | test_ProcessPool/code.cpp:137-163 | In every reachable state the parent is kept waiting if and only if the chosen pipe is full, the child to be reaped is alive, or it is done |
| ProcessPoolShutdown.ChildBlockedIff | test_ProcessPool/code.cpp:46-57 | A child is kept waiting if and only if it reads its empty pipe while the parent, or a younger child in its closing loop, still holds the write end |
| ProcessPoolShutdown.InvalidIsRefused | test_ProcessPool/code.cpp:204-212 | Any code but the four and any channel that does not exist is refused without a write, and a child skips any other code (lines 59-62) |
| ProcessPoolShutdown.EveryRunEnds | test_ProcessPool/code.cpp:137-163 | From any reachable state every run is bounded by a measure, and one that cannot go on has reaped each child once, in order, after it executed exactly the codes sent to it |
| ProcessPoolShutdown.PoolTerminates | test_ProcessPool/code.cpp:261-277 | The same for the whole program from its first line |
| ProcessPoolShutdown.DoneIsFinished | test_ProcessPool/code.cpp:155-163 | When Quit is through, everything dispatched has been executed by the chosen child, and every channel got its share |
| ProcessPoolShutdown.RoundRobin | test_ProcessPool/code.cpp:190-196 | At any time the channels' shares differ by at most one, in channel order |
| ProcessPoolShutdown.ExecutesPrefix | test_ProcessPool/code.cpp:46-68 | At any time a child has executed a prefix of what was sent to it, and all of it when it has exited |
| ProcessPoolClass.ProcessPool.constructor | test_ProcessPool/code.cpp:121-123 | A new pool has no channel |
| ProcessPoolClass.ProcessPool.Pipe | test_ProcessPool/code.cpp:219-224 | The two descriptors are those of the protocol's pipe step |
| ProcessPoolClass.ProcessPool.Fork | test_ProcessPool/code.cpp:226 | The new child gets the next process id and no channel changes |
| ProcessPoolClass.ProcessPool.CreateChannel | test_ProcessPool/code.cpp:218-251 | Adds one channel, beside the running children |
| ProcessPoolClass.ProcessPool.CreatProcessChannel | test_ProcessPool/code.cpp:217-253 | Afterwards there are n channels, and channel j's descriptor names pipe j and its process is child j |
| ProcessPoolClass.ProcessPool.SelectChannel | test_ProcessPool/code.cpp:190-196 | The result passes the range check of SendTaskToChannel, and the next call will choose its cyclic successor |
| ProcessPoolClass.ProcessPool.Dispatch | test_ProcessPool/code.cpp:140-152 | The random task's code is sent to the selected channel and to no other, or that channel's pipe is full |
| ProcessPoolClass.ProcessPool.Run | test_ProcessPool/code.cpp:137-153 | Afterwards every channel has received exactly the codes of its turns, in order; short of that, the pipe of the channel whose turn it is is full |
| ProcessPoolClass.AssignedAt | test_ProcessPool/code.cpp:190-201 | Which these are: the code for the p-th dispatch goes to channel p mod n, as its p / n-th |
| ProcessPoolClass.ProcessPool.ClosePipe | test_ProcessPool/code.cpp:104-107 | Closes that channel's write end in the parent |
| ProcessPoolClass.ProcessPool.Wait | test_ProcessPool/code.cpp:109-112 | Reaps the channel's child exactly if it has exited, and goes on to the next channel or the end |
| ProcessPoolClass.ProcessPool.Quit | test_ProcessPool/code.cpp:155-163 | When it gets through, every child has been reaped in order after executing exactly what was sent to it; short of that, the child it waits for is alive |
| BlockQueueProtocol.AlwaysInvariant | test_thread11/BlockQueue.hpp:41-74 | In every interleaving, with spurious and multiple wakeups: lock ownership, both sleeper counters exact, no lost wakeup on either side, size at most cap, FIFO |
| BlockQueueProtocol.StepKeepsInvariant | test_thread11/BlockQueue.hpp:41-74 | Each single action keeps all of that |
| BlockQueueProtocol.NoLostWakeup | test_thread11/BlockQueue.hpp:44-72 | With the mutex free: counters are waiting plus woken; sleeping consumers mean at least size woken ones, sleeping producers at least cap - size woken ones; a counter of zero means nobody waits |
| BlockQueueProtocol.WakePSums | test_thread11/BlockQueue.hpp:70-72 | A signal moves at least one waiting producer to the woken ones and nobody leaves the counter |
| BlockQueueProtocol.WakeCSums | test_thread11/BlockQueue.hpp:51-53 | The same for consumers |
| BlockQueueProtocol.EverybodyWaits | test_thread11/BlockQueue.hpp:14-19 | If all threads slept together the queue would be empty and full at once |
| BlockQueueProtocol.NeverStuck | test_thread11/BlockQueue.hpp:41-74 | With cap, producers and consumers all positive some looping thread can always step, without spurious wakeups |
| BlockQueueProgress.CanPop | test_thread11/BlockQueue.hpp:59-74 | From any reachable state with an item queued and a call of Pop that has not got one, the calls under way can be run, without a new call or a spurious wakeup, until one pops that item |
| BlockQueueProgress.CanPush | test_thread11/BlockQueue.hpp:41-55 | The same for room in the queue and a call of Enqueue that has not pushed |
| BlockQueueProgress.CallsEnd | test_thread11/BlockQueue.hpp:41-74 | From any reachable state every run of the calls under way is bounded, and one that cannot go on has left no call of Pop unless the queue is empty and no call of Enqueue unless it is full |
| BlockQueueProgress.ProducerBlockedIff | test_thread11/BlockQueue.hpp:41-55 | In every reachable state any producer is kept from its next action if and only if it sleeps or waits for the held mutex |
| BlockQueueProgress.ConsumerBlockedIff | test_thread11/BlockQueue.hpp:59-74 | The same for any consumer |
| BlockQueueProgress.WhoIsWoken | test_thread11/BlockQueue.hpp:51-72 | Whom a push or a pop wakes: nobody if the other side's counter is zero, otherwise any choice that includes a waiting thread if there is one; and any waiting thread may wake by itself |
| BlockQueueProtocol.DeadlockFreeIff | test_thread11/BlockQueue.hpp:14-74 | For any positive numbers of threads: no schedule deadlocks if and only if cap is positive |
| BlockQueueProtocol.StepRefinesBoundedQueue | test_thread11/BlockQueue.hpp:41-74 | Each step puts the producer's item at the back of a queue with room, hands the front item to the consumer, or leaves the queue alone |
| BlockQueueProtocol.DeliversInOrder | test_thread11/BlockQueue.hpp:41-74 | Pushed = popped ++ queued after any schedule, with at most cap queued |
| BlockQueueClass.BlockQueue.constructor | test_thread11/BlockQueue.hpp:22-31 | A new queue is empty with nobody asleep; a negative capacity acts as a huge one, as IsFull compares it with an unsigned size |
| BlockQueueClass.BlockQueue.Enqueue | test_thread11/BlockQueue.hpp:41-55 | Under any interference this producer has pushed exactly this item, once; or it has pushed nothing and its next action is impossible, or the queue is full after the allowed number of sleeps |
| BlockQueueClass.BlockQueue.SleepWhileFull | test_thread11/BlockQueue.hpp:44-48 | One sleep: back at the test with the mutex, or its next action is impossible |
| BlockQueueClass.BlockQueue.PutAndSignal | test_thread11/BlockQueue.hpp:50-54 | The item goes to the back, the mutex is released |
| BlockQueueClass.BlockQueue.Pop | test_thread11/BlockQueue.hpp:59-74 | Under any interference this consumer has popped exactly the item it returns, once; or it has popped nothing and its next action is impossible, or the queue is empty after the allowed number of sleeps |
| BlockQueueClass.BlockQueue.SleepWhileEmpty | test_thread11/BlockQueue.hpp:62-66 | One sleep: back at the test with the mutex, or its next action is impossible |
| BlockQueueClass.BlockQueue.TakeAndSignal | test_thread11/BlockQueue.hpp:67-73 | The front item is returned and removed, the mutex is released |
| BlockQueueClass.OthersLeaveProducer | test_thread11/BlockQueue.hpp:41-74 | On any schedule others can wake a producer but not move it, and push nothing in its name |
| BlockQueueClass.OthersLeaveConsumer | test_thread11/BlockQueue.hpp:41-74 | The same for a consumer |
| BlockQueueClass.CalledIsPushed | test_thread11/BlockQueue.hpp:41-55 | Along any schedule each producer puts exactly the items of its calls into the queue, in order, up to the call under way |
| BlockQueueClass.PoppedIsReturned | test_thread11/BlockQueue.hpp:59-74 | Along any schedule each consumer's calls return exactly the items that it takes out, in order, up to the call under way |
| SshProtocol.ReConnectDecides | RemoteSSH/SSH_Client.cpp:70-87 | The result of ReConnect from the network's answers alone: max + 1 refusals end CLOSED, an earlier acceptance CONNECTED with that socket, a failing socket() ends the program |
| SshProtocol.ProcessDecides | RemoteSSH/SSH_Client.cpp:89-119 | The result of Process from the answers alone: it goes on while data comes back; end of file and a failed read make it DISCONNECTED, a failed write CLOSED, with the later answers untouched |
| SshProtocol.ProcessCutIff | RemoteSSH/SSH_Client.cpp:90-117 | It is still going on when the answers run out if and only if all were data |
| SshProtocol.ExecuteGoes | RemoteSSH/SSH_Client.cpp:146-165 | Execute goes through both lists of answers from the front: opened sockets and hangups are those among the answers used, a failing socket() ends the program, it returns after a failed write or max + 1 refusals in a row, and is unfinished only for want of the answer it needs next |
| SshProtocol.RetryKeeps | RemoteSSH/SSH_Client.cpp:70-87 | Socket accounting and the bound on failed connects through the retry loop |
| SshProtocol.ProcessKeeps | RemoteSSH/SSH_Client.cpp:89-119 | Process ends DISCONNECTED or CLOSED and keeps what holds at the switch |
| SshProtocol.NewTurn | RemoteSSH/SSH_Client.cpp:149-151 | The first connect keeps what holds at the switch |
| SshProtocol.DisconnectedTurn | RemoteSSH/SSH_Client.cpp:155-157 | So does a ReConnect, which ends CONNECTED or CLOSED |
| SshProtocol.ClosedTurn | RemoteSSH/SSH_Client.cpp:158-160 | The switch never sees CONNECTING, and the closing turn leaves no descriptor |
| SshProtocol.ExecuteEndsWell | RemoteSSH/SSH_Client.cpp:146-165 | Over any network behaviour: never spinning, at most max + 2 failed connects in a row, no descriptor held on return, and sockets never closed = conversations that ended DISCONNECTED |
| SshProtocol.LeakFreeIff | RemoteSSH/SSH_Client.cpp:50-165 | A client that returns has closed every socket it opened if and only if the first max + 2 connects are refused or the first answer other than data is a failed write |
| SshProtocol.RetryGivesUp | RemoteSSH/SSH_Client.cpp:73-83 | A ReConnect that returns is CLOSED if and only if all max + 1 connects are refused, and CONNECTED otherwise |
| SshProtocol.ProcessHangups | RemoteSSH/SSH_Client.cpp:94-117 | A conversation ends without losing its socket if and only if a write ends it |
| SshProtocol.FirstSocketIsNeverClosed | RemoteSSH/SSH_Client.cpp:50-87 | A concrete run that leaves a socket open |
| SshClient.ClientConnection.constructor | RemoteSSH/SSH_Client.cpp:35-42 | A fresh connection: NEW, no descriptor |
| SshClient.ClientConnection.DisConnect | RemoteSSH/SSH_Client.cpp:121-127 | Afterwards no descriptor is held, and exactly the one that was held has been closed |
| SshClient.ClientConnection.Connect | RemoteSSH/SSH_Client.cpp:50-68 | The program exits exactly if socket() fails; otherwise a descriptor is held if and only if the status is CONNECTED, and whatever was opened here is closed or held |
| SshClient.ClientConnection.ReConnect | RemoteSSH/SSH_Client.cpp:70-87 | The first answer that is no refusal decides, within max + 1 connects: CONNECTED on that socket, or the end of the program; max + 1 refusals end CLOSED |
| SshClient.ClientConnection.Process | RemoteSSH/SSH_Client.cpp:89-119 | The first answer that is not data decides: CLOSED for a failed write, DISCONNECTED otherwise; without one the status stays |
| SshClient.TcpClient.constructor | RemoteSSH/SSH_Client.cpp:140-142 | Starts in a state that the switch may see |
| SshClient.TcpClient.Execute | RemoteSSH/SSH_Client.cpp:146-165 | The loop reaches the specified end and ends well |
| ChatProtocol.AlwaysInvariant | 3_ChatServer/UdpServer.hpp:71-97 | In every interleaving of the receive loop and any number of workers: distinct users, registered senders, broadcasts to growing lists, the send log and conservation of messages |
| ChatProtocol.NothingIsDropped | 3_ChatServer/UdpServer.hpp:71-97 | After any interleaving the messages handed to the pool and the one in hand are exactly those received, in order, and the users are the senders checked in, each once, in the order of their first messages |
| ChatProtocol.SendersOnce | 3_ChatServer/UserManager.hpp:20-23 | What registering the senders of any messages makes of any user list |
| ChatProtocol.BroadcastsAreTotallyOrdered | 3_ChatServer/Route.hpp:17-28 | In every reachable state the send log is whole broadcasts one after the other (the last perhaps unfinished), each to distinct users including the sender; of two users the later registered has received a suffix of what the other has, not counting the message of a broadcast that has reached the earlier and not yet the later |
| ChatProtocol.LaterHasSuffix | 3_ChatServer/Route.hpp:17-23 | That order for two given users, with the message in progress on top of what the earlier one has |
| ChatProtocol.SuffixOfBlocks | 3_ChatServer/Route.hpp:17-23 | The suffix property for any growing sequence of broadcasts |
| ChatProtocol.ReceivedOnce | 3_ChatServer/Route.hpp:20-22 | A broadcast reaches each recipient once and nobody else |
| ChatProtocol.BroadcastOnce | 3_ChatServer/ChatServerMain.cpp:36-48 | No message is broadcast twice or made up, and with the pool idle all accepted ones have been |
| ChatProgress.EverythingIsBroadcast | 3_ChatServer/UdpServer.hpp:87-94 | With at least one worker every run without new datagrams is bounded, and one that cannot go on has an idle pool and has broadcast every message received, the one in hand included, exactly once |
| ChatProgress.ReceivedIsBroadcast | 3_ChatServer/ChatServerMain.cpp:36-49 | From the first datagram on: when no more arrive and the server comes to rest, each message received has been broadcast exactly once |
| ChatProgress.ServerBlockedIff | 3_ChatServer/UdpServer.hpp:76-94 | The receive loop is kept waiting if and only if it has no datagram or the route's lock is held, and takes a datagram whenever it has none |
| ChatProgress.WorkerBlockedIff | 3_ChatServer/Route.hpp:17-18 | Any worker is kept waiting if and only if nothing is queued or the lock is held |
| ChatProtocol.WorkerKeepsConserved | 3_ChatServer/ChatServerMain.cpp:40-42 | Each worker step keeps accepted = broadcast + in hand + queued |
| ChatProtocol.WorkerKeepsLogged | 3_ChatServer/Route.hpp:17-23 | Each send extends the one broadcast in progress |
| ChatServer.DelUserDeletes | 3_ChatServer/UserManager.hpp:25-36 | Deleting removes that user, keeps all others in order and no duplicates; adding again puts the user last |
| ChatServer.AcceptedInOrder | 3_ChatServer/UdpServer.hpp:77-94 | Each datagram with a message is handed over, once and in its place; failed and empty ones are not |
| ChatServer.UserManager.SearchUser | 3_ChatServer/UserManager.hpp:38-45 | Found if and only if present |
| ChatServer.UserManager.AddUser | 3_ChatServer/UserManager.hpp:20-23 | Appended only if absent |
| ChatServer.UserManager.DelUser | 3_ChatServer/UserManager.hpp:25-36 | The first occurrence is removed, nothing else |
| ChatServer.Route.Broadcast | 3_ChatServer/Route.hpp:17-23 | One contiguous block of sends, by which each registered user receives the message once and nobody else does |
| ChatServer.Route.CheckUser | 3_ChatServer/Route.hpp:25-28 | The user is registered afterwards |
| ChatServer.Route.OffLineUser | 3_ChatServer/Route.hpp:30-33 | The user is removed |
| ChatServer.UdpServer.Loop | 3_ChatServer/UdpServer.hpp:71-97 | Users and handed-over messages after any datagrams are those of AcceptedInOrder and SendersOnce; every handed-over message has a registered sender |
| Dict.LoadsBackIff | 2_echo_server/Dict.hpp:33-55 | A list of entries is exactly what its printed file loads as if and only if no key contains ": " and no entry contains a newline |
| Dict.TwoThatDoNotLoadBack | 2_echo_server/Dict.hpp:34-37 | Two concrete entries that fail: a separator in the key, a newline in the value |
| Dict.LoadInvertsPrint | 2_echo_server/Dict.hpp:33-68 | Loading such a file and translating gives the value of the first entry with the key, or "None" |
| Dict.ParsePrintIff | 2_echo_server/Dict.hpp:37-53 | A line parses back to its entry if and only if its key has no ": " in it |
| Dict.ColonSpaceSeparates | 2_echo_server/Dict.hpp:13-53 | On lines written with a colon and a blank: the key is what precedes the first such pair, the value all that follows; a line without one is no entry |
| Dict.NoSeparatorBefore | 2_echo_server/Dict.hpp:37 | Also a key that ends in ":" is separated in the right place |
| Dict.LoadIsFirstMatch | 2_echo_server/Dict.hpp:34-55 | For any lines: a key has the value of the first line that has it, and lines without separator do not matter |
| Dict.LinesOfPrint | 2_echo_server/Dict.hpp:33-34 | getline undoes the line ends |
| Dict.LinesHaveNoNewline | 2_echo_server/Dict.hpp:34 | No line that getline returns contains a newline |
| Dict.LinesGiveTextBack | 2_echo_server/Dict.hpp:34 | For any text, its lines put together again are the text, with a newline at the end if it had none |
| Dict.FinalNewlineIsOptional | 2_echo_server/Dict.hpp:34 | A last line counts whether or not a newline follows it |
| Dict.ParsedPrintsBack | 2_echo_server/Dict.hpp:37-53 | A parsed line is the printed form of its entry, and its key has no separator in it |
| Dict.Index | 2_echo_server/Dict.hpp:37 | The first occurrence, none if there is none |
| Dict.Dict.LoadDict | 2_echo_server/Dict.hpp:26-58 | The loop adds the file's lines to those the map stands for, and the program ends if the file cannot be opened |
| Dict.Dict.Translate | 2_echo_server/Dict.hpp:60-68 | The value of the first loaded line that has the word as its key, or "None" if none has |

## Left out

- RingQueueClass.RingQueue.constructor: a negative capacity, with which the source's vector cannot be built, is not modelled.
- RingQueueClass.RingQueue.Enqueue: one uncontended caller, and a blocked `P` returns false; contention between callers is in RingProtocol and RingProgress.
- RingQueueClass.RingQueue.Pop: the same.
- BlockQueueClass.BlockQueue.Enqueue: ends where the thread cannot go on, or after `patience` sleeps, so that the method terminates; that the calls end is BlockQueueProgress.CallsEnd.
- BlockQueueClass.BlockQueue.Pop: the same.
- ThreadPoolClass.ThreadPool.HandlerTask: runs at most `patience` tasks, and stops where it is still blocked; the endless loop is in ThreadPoolProtocol.
- ThreadPoolClass.ThreadPool.NextTask: at most `patience` wakeups in one wait loop; when these are used up it gives up, holding the mutex, with nothing queued.
- ThreadPoolClass.ThreadPool.Enqueue: one attempt at the mutex; false if it is not free at that moment, with the call then left waiting in the protocol.
- ThreadPoolClass.ThreadPool.Stop: the same.
- ThreadPoolClass.ThreadPool.Join: returns false where pthread_join would block.
- ThreadPoolClass.ThreadPool.Start: called by one thread; Stop comes after Start has returned, and a stopped pool is not started again.
- ThreadPoolClass.ThreadPool.Wait: returns false where pthread_join would still block; that it returns in the end is ThreadPoolShutdown.DrainTerminates.
- ProcessPoolTraffic.AlwaysInvariant: needs at least one channel (with none, `index % 0`) and assumes that pipe, fork, read and write succeed, that a write is atomic, that nothing is interrupted and that the counter does not overflow. POLL_SIZE = 4 and the six dispatches of Run are any numbers here.
- ProcessPoolClass.ProcessPool.Dispatch: returns false where the write would block on a full pipe.
- ProcessPoolClass.ProcessPool.Run: gives up at the first pipe that is full at that moment; that the whole run ends is ProcessPoolShutdown.EveryRunEnds.
- ProcessPoolClass.ProcessPool.Wait: returns false where waitpid would block.
- ProcessPoolClass.ProcessPool.Quit: gives up at the first child that has not exited yet; that it ends is ProcessPoolShutdown.EveryRunEnds.
- SshProtocol.ExecuteEndsWell: a run is followed as long as the oracle has answers; that no run of the network lasts for ever is not claimed. The pause between retries is dropped.
- PoolSingleton.OnePool: Start is one step here, so a pool counts as started while its workers are still being created; creation worker by worker is in ThreadPoolProtocol.
- BlockQueueProtocol.NeverStuck: the beginning of a new call counts as a step, as the threads loop; progress of the calls under way alone is BlockQueueProgress.CallsEnd.
- ChatProtocol.BroadcastsAreTotallyOrdered: without deletions, since no handler calls OffLineUser; the pool is the FIFO queue that ThreadPoolProtocol shows it to be, and the sends are ordered as the server issues them (UDP may lose or reorder them).
- Fairness of the scheduler: liveness is stated as "some thread can always step", "a run exists" and "every run without new calls is bounded and ends served", not as "every thread gets its turn while new calls keep coming".
- Tasks are assumed to terminate and not to throw; what they compute is not modelled.
- mutex.hpp, Cond.hpp and Sem.hpp are the step semantics described above, not members.
- thread.hpp's status fields: `ToRunning` can race with `ToStop`, so only started, exited and joined are used.
- The C++ memory model for the unsynchronised read of `_instance`: sequential consistency is assumed.
- threadPool/ThreadPool.hpp and threadPool_Singleton/ThreadPool.hpp: earlier versions that unlock twice on the exit path.
- 3_ChatServer/ThreadPool.hpp and RemoteSSH/ThreadPool.hpp: the same pool as the one modelled.
- test_thread10: the blocking queue on raw pthreads, the same protocol.
- Sockets, byte order, buffers, InetAddr conversions, logging and printing.
- RemoteSSH/Command.hpp, signals, shared memory, named pipes and the remaining demos.
