# Verified protocols of an embedded-Linux demo collection

A Dafny model of the parts of the repository that hold real protocols or changing data: the
producer/consumer designs of `02_threads/thread_demo.c`, the character device of
`10_device_driver/chardev.c`, the leak tracker of `05_memory/memory_demo.c`, the shared-memory handoff
of `03_ipc/shm_demo.c` and the event loop of `07_networking/tcp_server.c`. `dafny verify dfyconfig.toml`
checks everything.

How it is laid out:

- `StepSystem.dfy`, `Sums.dfy`: schedules over a step function, and sums over threads. A run is the list
  of scheduling decisions taken; a theorem about `After(Next, s0, sched)` for every `sched` that `Runs` is
  a theorem about every reachable state of every interleaving. Thread counts, iteration counts and
  message counts are parameters.
- `Workload.dfy`, `Ring.dfy`: the values both queues carry and the eight-slot ring, as a value and as the
  in-place class `BoundedQueue`.
- `CondQueue.dfy`, `CondQueueSafety.dfy`, `CondQueueTheorems.dfy`: the mutex and condition-variable queue,
  one C statement per step, for any mix of producers and consumers. A signal wakes any non-empty set of
  sleepers, and spurious wakeups may happen at any time, as the `pthread_cond_wait()` and
  `pthread_cond_signal()` entries of IEEE Std 1003.1-2017 allow.
- `SemQueue.dfy`, `BatchCounter.dfy`, `MutexCounter.dfy`: the semaphore queue, `producer2`/`consumer2` and
  the mutex counter.
- `CharDevice.dfy`, `DeviceCallers.dfy`, `DeviceLifecycle.dfy`: the device as one atomic byte queue and as
  an array changed in place; any number of concurrent callers, byte by byte; loading and unloading.
- `LeakTracker.dfy`, `LeakList.dfy`: the tracker against a heap that may place and reuse blocks freely, and
  the linked list with its pointer-to-pointer unlinking.
- `SharedMemory.dfy`, `EpollServer.dfy`: the two-process handoff and the descriptor bookkeeping.

Assumptions about code outside the repository: a mutex excludes, a semaphore counts, `malloc` returns
blocks that overlap no live block and lie below 2^64 and above address zero, the record allocation in
`tracked_malloc` succeeds (the code does not check it), code that does not use the tracker frees only
blocks of its own, and `epoll_wait` reports each watched descriptor at most once per batch. Failing
`accept4`, `EPOLL_CTL_ADD`, `recv`, user copies and load steps are all modelled.

Where code and comments differ the model follows the code: the header of `chardev.c` speaks of a circular
buffer, the code shifts the live bytes to the left; the struct has a read position, `rd_pos`, which no
operation uses.

## Model

| member | source | states |
|---|---|---|
| Ring.BoundedQueue.Push | 02_threads/thread_demo.c:166-170 | the array update appends exactly the value to the abstract contents, at the old tail, which moves one slot modulo eight; refused, with nothing changed, exactly when eight are held |
| Ring.BoundedQueue.Pop | 02_threads/thread_demo.c:178-182 | the array update removes and returns exactly the oldest value, from the old head, which moves one slot modulo eight; refused, with nothing changed, exactly when empty |
| Ring.PushedContents | 02_threads/thread_demo.c:168-170 | on the value: write, advance and count append one value and keep the tail count slots past the head |
| Ring.PoppedContents | 02_threads/thread_demo.c:180-182 | on the value: read, advance and count remove the oldest value |
| CondQueue.BlockedMeansNoStep | 02_threads/thread_demo.c:163-186 | a thread is blocked (finished, asleep, or waiting for a held mutex) exactly when it has no step of its own |
| CondQueue.UpdateIsPushOrPop | 02_threads/thread_demo.c:168-182 | the three update steps of a thread compose to the in-place push of its item or pop of the value it then carries |
| CondQueueSafety.StepRing | 02_threads/thread_demo.c:168-182 | every single statement of every thread keeps the ring representing the pushes not yet popped, including half-done updates |
| CondQueueSafety.StepPopWake | 02_threads/thread_demo.c:170-184 | every step keeps "while a consumer sleeps, items are covered by awake consumers or an owed signal" |
| CondQueueSafety.StepPushWake | 02_threads/thread_demo.c:166-183 | the same for sleeping producers and free slots |
| CondQueueSafety.StepOwn | 02_threads/thread_demo.c:190-212 | every step keeps each producer's pushes a prefix of its program and each consumer free of sentinels until the one that ends it |
| CondQueueSafety.RunHolds | 02_threads/thread_demo.c:163-212 | all invariants hold after every schedule |
| CondQueueTheorems.MutualExclusion | 02_threads/thread_demo.c:165-172 | two threads between lock and unlock are the same thread, the owner |
| CondQueueTheorems.Fifo | 02_threads/thread_demo.c:149-186 | in every reachable state the pushed values are the popped ones followed by the ring read from head for count slots (with the one value in hand while a pop is half done) |
| CondQueueTheorems.ProducerOrder | 02_threads/thread_demo.c:190-200 | the k-th pop returns the k-th push, and a producer with bound n has pushed a prefix of the values 0, 1, ..., n-1, -1, written out value by value; a negative bound sends the -1 alone |
| CondQueueTheorems.NoLostWakeup | 02_threads/thread_demo.c:163-186 | while a consumer sleeps, queued items never outnumber awake consumers plus owed signals, none owed when the mutex is free; symmetrically for producers |
| CondQueueTheorems.StuckStates | 02_threads/thread_demo.c:163-186 | no step is left exactly when all are done, or all unfinished are consumers asleep on an empty queue, or all are producers asleep on a full one |
| CondQueueTheorems.Outcome | 02_threads/thread_demo.c:145-212 | how every maximal run ends by the numbers of producers and consumers: equal numbers all finish with an empty queue, and only equal numbers do; fewer producers leave exactly the surplus consumers asleep; fewer consumers all finish, and the producers do exactly when what was never popped fits the queue, sleeping on a full queue otherwise |
| CondQueueTheorems.SurplusProducers | 02_threads/thread_demo.c:190-212 | with surplus producers, all finish exactly when the unpopped rest fits eight slots; certain beforehand when all pushes but one for each consumer fit |
| CondQueueTheorems.PushAccount | 02_threads/thread_demo.c:190-200 | pushes made plus pushes still to make is constant over every run |
| CondQueueTheorems.Delivery | 02_threads/thread_demo.c:190-212 | with equal numbers, everything pushed is popped in the same order; every producer pushed n + 1 values, the k-th being k for k < n and the last -1; each consumer got -1 once, last |
| CondQueueTheorems.MeasureStep | 02_threads/thread_demo.c:163-223 | every step but a spurious wakeup lowers an explicit measure, although a signal raises the rank of all it wakes |
| CondQueueTheorems.Terminates | 02_threads/thread_demo.c:163-223 | a run's length is bounded by its start and six per spurious wakeup, for every mix of threads |
| CondQueueTheorems.CanFinish | 02_threads/thread_demo.c:163-223 | every reachable state can run on without spurious wakeups to a state with no step left; balanced, to everyone finished and nothing queued |
| SemQueue.Safety | 02_threads/thread_demo.c:238-255 | the two semaphores and the operations in flight always total the tokens, and the slot being written is never the slot being read, for any token count up to the slot count and any starting rotation |
| SemQueue.Delivery | 02_threads/thread_demo.c:256-274 | what the consumer has received is, value by value, a prefix of 0, 1, ..., n-1, -1; it is done exactly when it has all n + 1 of them, and then the producer is done too |
| SemQueue.NoDeadlock | 02_threads/thread_demo.c:238-289 | with at least one token, neither thread can move exactly when both have finished |
| SemQueue.Terminates | 02_threads/thread_demo.c:238-274 | no run exceeds twelve steps per value, and exactly the finished ones reach it |
| SemQueue.CountIndependence | 02_threads/thread_demo.c:243-251 | two runs under one schedule agree on all but the racy count and its registers, even when one has count overwritten arbitrarily before every step |
| SemQueue.CountExactIffNoOverlap | 02_threads/thread_demo.c:243-251 | in a finished run count was right at every moment exactly when the two unprotected updates never overlapped |
| SemQueue.CountEndsWrong | 02_threads/thread_demo.c:243-251 | a finished run with the source's five tokens and two values that leaves count at -1, its updates having overlapped |
| SemQueue.CountAccount | 02_threads/thread_demo.c:243-251 | in every run count is off by the decrements lost less the increments lost, an update being lost when the value it stored is not what count now derives from; a finished run ends at its start exactly when as many of each were lost |
| BatchCounter.MovesInBatches | 02_threads/thread_demo.c:375-402 | whenever the mutex is free both totals are multiples of eleven or at their end, and an unfinished producer leaves count at 0 or 11 |
| BatchCounter.OneBatchAtATime | 02_threads/thread_demo.c:375-402 | count stays within 0..11, is pushes minus pops, and the thread without the mutex stands at a batch boundary |
| BatchCounter.NoDeadlock | 02_threads/thread_demo.c:375-417 | neither thread can move exactly when both are done, and then count is 0 and both made n iterations |
| BatchCounter.Terminates | 02_threads/thread_demo.c:375-402 | at most 12n + 6 steps plus four per spurious wakeup |
| MutexCounter.MutualExclusion | 02_threads/thread_demo.c:106-115 | at most one thread is between lock and unlock |
| MutexCounter.FinalCount | 02_threads/thread_demo.c:106-139 | a run that cannot go on has every thread finished and the counter at threads times iterations |
| MutexCounter.Terminates | 02_threads/thread_demo.c:106-115 | four steps per thread and iteration, no more in any run and exactly that in the finished ones |
| CharDevice.CharDev.ShiftLeft | 10_device_driver/chardev.c:122-122 | the in-place move brings the bytes after n to the front and leaves the rest of the array alone |
| CharDevice.CharDev.Read | 10_device_driver/chardev.c:102-129 | on the array: end of file when empty; -EFAULT with the live bytes kept; otherwise the bytes returned followed by the live bytes left are the old live bytes, at most `count` of them, fewer only if the buffer is emptied; and it is the atomic read |
| CharDevice.CharDev.Write | 10_device_driver/chardev.c:132-163 | on the array: -ENOSPC at 4096 bytes; -EFAULT with the live bytes kept when the copy stops short; otherwise the first n bytes are appended, all of them unless the buffer is then full; and it is the atomic write |
| CharDevice.CharDev.Ioctl | 10_device_driver/chardev.c:173-207 | RESET empties and zeroes the array, GSIZE reports the length or -EFAULT, SECHO sets `echo` or -EFAULT, anything else is -ENOTTY and changes nothing; all as the atomic device |
| CharDevice.AtomicCalls | 10_device_driver/chardev.c:102-207 | for every call and outcome of its user copy: which bytes leave or join the queue, how many relative to the demand and to 4096, what `echo` becomes, and which result or error is returned |
| CharDevice.WritesJoin | 10_device_driver/chardev.c:140-153 | writing a then b is writing a + b: same device, same bytes accepted, -ENOSPC together with the first |
| CharDevice.ReadsJoin | 10_device_driver/chardev.c:110-124 | reading m then n bytes is reading m + n: same bytes, same rest; neither part exceeds its demand, and only an emptied queue makes the whole fall short |
| CharDevice.WriteChunking | 10_device_driver/chardev.c:140-153 | any way of cutting a byte string into writes leaves the same device and appends the same leading part of it, cut short only at 4096 bytes |
| CharDevice.ReadChunking | 10_device_driver/chardev.c:110-124 | any way of cutting a demand into reads returns the same leading bytes of the queue, no more than the sum of the demands and fewer only if the queue is emptied |
| CharDevice.WriteLoop | 10_device_driver/chardev.c:132-163 | on the array, a loop of writes is one write of everything: the first n bytes are appended, n short of all only when the buffer is full |
| CharDevice.ReadLoop | 10_device_driver/chardev.c:102-129 | on the array, a loop of reads, each with its own left shift, is one read of the total: the oldest bytes, no more than asked for and fewer only when the buffer is emptied |
| CharDevice.Conservation | 10_device_driver/chardev.c:102-193 | over any legal history, bytes accepted since the last RESET are bytes returned since then followed by the queue, at most 4096; `echo` is the value of the last successful SECHO, one if there was none |
| DeviceCallers.StepInside | 10_device_driver/chardev.c:108-161 | every byte-sized step under the lock keeps the array in step with the atomic device and decides only results the atomic device gives |
| DeviceCallers.Linearizable | 10_device_driver/chardev.c:102-207 | any interleaving of any callers is a history of the atomic device; each call takes effect once, between its start and its end, in real-time order |
| DeviceCallers.RealTimeOrder | 10_device_driver/chardev.c:102-207 | wherever the schedule is cut, a call returned before the cut takes effect before every call begun after it |
| DeviceCallers.CallsMatchStarts | 10_device_driver/chardev.c:102-207 | the calls a caller has returned from, and the one it is in, are those started for it, in order, with their own arguments |
| DeviceCallers.ResultsFitCalls | 10_device_driver/chardev.c:102-207 | in any interleaving a read returns no more bytes than it asked for, a write accepts no more than it brought, a copy that fails gives -EFAULT unless the queue was empty or full, and the ioctls give their fixed answers |
| DeviceCallers.BytesConserved | 10_device_driver/chardev.c:102-193 | with the lock free, bytes accepted since the last RESET are bytes returned since then followed by buf[..buf_len], and `echo` is the value of the last successful SECHO |
| DeviceCallers.SizeWasTrue | 10_device_driver/chardev.c:187-193 | GSIZE reports a length the queue had at a moment during the call |
| DeviceCallers.CopiesSpareLiveBytes | 10_device_driver/chardev.c:116-150 | no step of a user copy, faulting or not, changes a live byte or the length |
| DeviceCallers.ResetClears | 10_device_driver/chardev.c:179-185 | in every interleaving a RESET about to unlock leaves length zero and all 4096 bytes zero |
| DeviceCallers.InBounds | 10_device_driver/chardev.c:115-182 | every index read or written by the copies, the left shift and the clear, in every interleaving, is within the 4096 bytes; the moved length never underflows and a write takes only bytes it was given |
| DeviceCallers.NoDeadlock | 10_device_driver/chardev.c:102-207 | no caller has a step exactly when no call is open |
| DeviceCallers.CallsTerminate | 10_device_driver/chardev.c:102-207 | no run is longer than 12298 steps for each call started in it, however many callers interleave |
| DeviceLifecycle.LoadUnload | 10_device_driver/chardev.c:221-276 | for every set of failing steps, with k the place of the first of region, buffer, cdev, class, node that fails: if none fails the five are taken in that order and held, and unloading gives them back in reverse; otherwise exactly the first k are taken and given back in reverse; no cdev is ever live without its buffer |
| DeviceLifecycle.Module.Climb | 10_device_driver/chardev.c:226-255 | takes the first `held` of region, buffer, cdev, class, node, none of which fails, and stops short of five only where the next one fails |
| DeviceLifecycle.Module.Unwind | 10_device_driver/chardev.c:260-263 | falls through the labels, releasing the resources held in the order node, class, cdev, buffer, region |
| DeviceLifecycle.Module.Load | 10_device_driver/chardev.c:221-265 | succeeds exactly when no step fails, and then has taken all five in order; a failed load leaves nothing held |
| DeviceLifecycle.Module.Unload | 10_device_driver/chardev.c:268-276 | the exit path releases node, class, cdev, buffer, region in that order and leaves nothing held |
| LeakTracker.TotalFits | 05_memory/memory_demo.c:191-202 | because live blocks are disjoint, the tracked sizes never wrap a 64-bit size_t |
| LeakTracker.Agreement | 05_memory/memory_demo.c:184-221 | after every call sequence and against every heap: the records are exactly the outstanding blocks; the live blocks are exactly those, the records' own and the ones other code still holds by its own calls; the total is the sum of the tracked sizes, below 2^64 |
| LeakTracker.FreeReleases | 05_memory/memory_demo.c:206-221 | after any run, freeing an outstanding pointer makes its block and its record's block no longer live and takes exactly its size off the total; freeing anything else changes nothing |
| LeakTracker.MallocThenFree | 05_memory/memory_demo.c:193-221 | after any run, allocating and then freeing the answer restores heap, list and total, with two calls to malloc and two to free; in between the block is live, recorded and counted without wrap-around |
| LeakTracker.FreesAreSound | 05_memory/memory_demo.c:206-221 | whatever pointers callers hand in, the underlying free never sees a block that is not live or twice without an allocation in between |
| LeakTracker.ReportIsExact | 05_memory/memory_demo.c:223-233 | the report is clear exactly when every tracked block was freed; otherwise its lines are the outstanding blocks and its total the sum of the printed sizes |
| LeakList.Tracker.Malloc | 05_memory/memory_demo.c:193-204 | the in-place list gains the record at its front, the total its size modulo 2^64 and the heap two live blocks; or nothing changes and NULL is returned when the heap has no block |
| LeakList.Tracker.Unlink | 05_memory/memory_demo.c:213-213 | writing through the pointer slot removes one record, keeps the order of the rest and the list acyclic |
| LeakList.Tracker.Free | 05_memory/memory_demo.c:206-221 | the first record for the pointer is unlinked, its size taken off, its own block and then the caller's freed and no longer live; without such a record nothing changes and it is reported missing |
| LeakList.Tracker.Report | 05_memory/memory_demo.c:223-233 | all-clear exactly for an empty list; otherwise one line per record in list order, and the running total |
| SharedMemory.SharedBuf.Store | 03_ipc/shm_demo.c:85-86 | the buffer then reads as the text, cut at 255 characters, and bytes past the text's end are untouched |
| SharedMemory.SharedBuf.Load | 03_ipc/shm_demo.c:75-75 | the number and the characters before the first NUL |
| SharedMemory.StepsStoreAndLoad | 03_ipc/shm_demo.c:75-86 | the byte steps leave in the buffer what the in-place store leaves, and give the reader what the in-place load gives |
| SharedMemory.Handoff | 03_ipc/shm_demo.c:63-90 | for any message count, interleaving and old buffer contents, the j-th read is message j, number j and text together; semaphores plus work in progress total one |
| SharedMemory.DecimalReads | 03_ipc/shm_demo.c:86-86 | a printed number is digits only, reads back in base ten as itself and has no leading zero |
| SharedMemory.TextIsFramed | 03_ipc/shm_demo.c:85-86 | the text is the fixed words around the message number and then the process id, whole for all non-negative 32-bit values and otherwise cut at 255 characters |
| SharedMemory.NoDeadlock | 03_ipc/shm_demo.c:73-89 | neither process can move exactly when both are done, and then all messages were read |
| SharedMemory.Terminates | 03_ipc/shm_demo.c:73-89 | at most 518 steps per message |
| EpollServer.EventsHitTheirConnection | 07_networking/tcp_server.c:154-170 | every event handled, and every one still pending, concerns the connection it was reported for, even when numbers are closed and reused within the batch; no two open clients share a connection and every new one is unlike all handled before |
| EpollServer.WatchesAllClients | 07_networking/tcp_server.c:96-127 | the interest set is the listening socket plus all open clients exactly in the runs where no ADD failed; the descriptor of every failed ADD stays open and unwatched for good |
| EpollServer.AddFailureLosesAClient | 07_networking/tcp_server.c:100-114 | a two-step run in which a failed ADD leaves an open client outside the interest set |
| EpollServer.OpenClients | 07_networking/tcp_server.c:96-170 | after every run the open clients are exactly those accepted and since then neither hung up nor received from with a result of zero or less, going by the events and the kernel's answers alone |
| EpollServer.OpenStep | 07_networking/tcp_server.c:117-168 | one pass opens exactly the accepted descriptor and closes exactly the event's own, when it hung up or `recv` gave zero or less |
| EpollServer.EveryEventHandled | 07_networking/tcp_server.c:154-170 | the client events handled are those of the batches, each once and in order |
| EpollServer.Server.HandleNewConnection | 07_networking/tcp_server.c:96-115 | a failed accept changes nothing; a new client is open, and watched if its ADD took |
| EpollServer.Server.CloseClient | 07_networking/tcp_server.c:124-125 | the descriptor leaves the interest set and the open set, and nothing else does |
| EpollServer.Server.HandleEvent | 07_networking/tcp_server.c:157-168 | a client with an event stays open exactly when it has no hang-up and `recv` gives more than zero, and otherwise leaves both sets; every other descriptor is unchanged; on the listening socket the accepted descriptor, if any, is opened |
| EpollServer.Server.ServeBatch | 07_networking/tcp_server.c:154-170 | after a batch a client is open exactly if it was open before or accepted on the way and every event for it since then had no hang-up and brought more than zero bytes; the loop performs the model's steps and keeps its invariant |

## Left out

- Thread basics, thread-local storage and the read-write lock demo of `02_threads/thread_demo.c`: only easy members.
- Printing, sleeping and logging everywhere: output and timing; sleeps are arbitrary scheduling.
- MutexCounter.FinalCount: does not model overflow of a signed `long`, because threads times iterations stays far below it.
- SharedMemory.Handoff: does not model 32-bit message numbers, because the loop index is bounded by the message count.
- CharDevice.CharDev.Read: does not model `*ppos` and the bytes a faulting copy may already have delivered, because no operation reads either.
- The device operations `open`, `release` and `llseek`: constants.
- Use of the device by callers who still hold it open during unloading: kept out by module reference counting in the kernel.
- Socket set-up, payload echo and shutdown of `07_networking/tcp_server.c`, and the clients: input and output plumbing.
- The memory demos 1-4, processes, signals, timers, file I/O, message queues, GPIO, UART and shell scripts: outcomes decided by the kernel, or too simple to add anything.
