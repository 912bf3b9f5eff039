# Filth, verified

Filth is a multithreaded HTTP server built on epoll. This project models its core in Dafny and proves what
the core is for. Five parts are modelled:

1. **The lock-free job queue** (`LockFreeQueue.hpp`): any number of threads, one step per access to shared
   memory (`QueueSteps`, `QueueInvariant`, `QueueRuns`, `QueueCalls`), and the heap object run by one thread
   (`LockFreeQueue`). The free-list allocator `Preallocated` is built on that object.
2. **The cache** (`Cache.hpp`): the object with its real loops (`Cache`), and any number of threads with one
   step per lock region and per atomic operation on `cur` (`CacheSteps`, `CacheRuns`, `CacheCalls`).
3. **Connections between scheduler, job queue, workers, work map and kernel** (`Dispatch`, `DispatchRuns`,
   `DispatchEvents`), including shutdown; the work map and a worker's loop as code (`FindWork`, `Worker`); and
   the start and teardown of the thread pool (`ThreadPool`).
4. **Header names, header parser and printer**: the functions (`HeaderNames`, `HeaderParsing`, `HeaderTexts`)
   and the same as they run on a stream (`HeaderStream`).
5. **The assembly line of one connection** (`HTTP_Server_Work.cpp`, `Work.cpp`): its meaning on values
   (`Connection`), the theorems over whole runs (`ConnectionRuns`, `ConnectionRequests`), and the object
   (`ServerWork`).

`Wrappers` and `Sums` are helpers. `dafny verify dfyconfig.toml` checks everything.

Components in which threads interleave are step machines on values: one step is one access to shared state,
and a run is any sequence of steps. Everything else is imperative, proved against functions whose properties
are then proved as lemmas.

## What is assumed

- Memory is sequentially consistent and a queue node's address is never used again, as the queue's header
  asks for (src/LockFreeQueue.hpp:10-24).
- Clients of the cache call `unget` once for each successful `get` or `put`, and copy what they were given.
- Mutexes, reader-writer locks, the condition variable (with spurious wakeups), semaphores, epoll, sockets and
  thread creation do what their documentation says. Epoll reports each descriptor once per batch, only with
  events it was armed for or with an error, and forgets a closed descriptor.
- A call of a work object ends rescheduled, done or dormant (src/Work.hpp:13-16). In `Dispatch` the call and
  the worker's look at `deleteme` are one step, signals come through a descriptor, and work objects are
  server work.
- The thread pool is started and then destroyed, as the server does.
- Operations on the work map are atomic. The code does not make them so: `unregister` erases without the lock
  and find-or-make inserts under the lock for reading (src/FindWork_prealloc.hpp:54,
  src/FindWork_prealloc.hpp:97-105).
- What a derived class answers to a request is an arbitrary function of the request and of its number on the
  connection.

## Where the code and its comments disagree

The model follows the code. Each disagreement is stated exactly.

- The queue's comments say the semaphore equals the size of the queue and that `down` after a dequeue never
  sleeps (src/LockFreeQueue.hpp:14-16, src/LockFreeQueue.hpp:107-108). The semaphore lags:
  `QueueRuns.SemaphoreExact` says by how much and exactly when it is equal, `QueueRuns.TakerSleepsIff` exactly
  when a taker would sleep, and `QueueRuns.TakerMaySleep` gives a run where one does.
- A `put` that loses its second lookup (src/Cache.hpp:150-155) forgets its object and leaves its size in `cur`
  for good. `CacheRuns.LeakedIff` and `CacheRuns.CurWhenIdle` say exactly when, `CacheRuns.TwoPutsLeak` gives
  a run, and `CacheRuns.LeakShrinksCache` what follows.
- The parser's step back over an unfinished line does not count a CR already read (src/HTTP_parsing.cpp:36,
  src/HTTP_parsing.cpp:64). `HeaderParsing.SplitIsSafeIff` says exactly which splits of the input are
  harmless. `HeaderParsing.ChunkingDoesNotMatter` and the theorems of `ConnectionRuns` therefore ask that no chunk
  ends between a CR and its LF.
- `rduntil` is documented never to return 0 or EINTR (src/Work.hpp:44-45). At the end of the file it returns a
  stale `errno`, 0 or EINTR: `Connection.EndOfFileErrno` says exactly when. The caller takes 0 for no error, so
  a call cannot tell a client that has closed its end from one that is slow, and puts the connection back
  (`Connection.EndOfFileIsBlocking`); EINTR makes it throw (`Connection.SocketErrIff`). It is the scheduler that
  notices, because it always asks for EPOLLRDHUP and deletes the connection then (src/Scheduler.cpp:112,
  src/Scheduler.cpp:131, src/Scheduler.cpp:206-212; the bad events of `Dispatch`).
- The parser throws for a line that is too long outside the `try` that turns such errors into responses
  (src/HTTP_parsing.cpp:30-31, src/HTTP_Server_Work.cpp:48-49). The exception leaves the call, and as the worker
  catches `SocketErr` only (src/Worker.cpp:29), nothing in the worker stops it. `HeaderParsing.TooLongIff` and
  `Connection.LineTooLongIff` say exactly when, `Connection.FourAreTooMany` gives an input.
- A client that asks for the connection to be closed expects it after the response, as the comment there says
  (src/HTTP_2616_Server_Work.cpp:420-425). But `deleteme` is then set while the response is being prepared, and
  the worker looks at it right after that call (src/Worker.cpp:33-34), before anything of the response is
  written. `Connection.DeletedIff`, `Connection.ClosingAnswerUnsent` and `ConnectionRuns.ClosingAnswerIsLost`
  say exactly which answers are lost.
- Response headers of 4096 bytes or more, or with a NUL, are cut (src/HTTP_Server_Work.cpp:86-91):
  `Connection.HdrsWholeIff` and `Connection.RepliesWholeIff` say exactly when. What a read delivers behind a NUL
  is dropped (src/Work.cpp:34-37): `Connection.ReadsEverything` and `ConnectionRuns.ReceivedIff`.
- The scans for white space in a header name test no end (src/HTTP_constants.cpp:121-125). On a name that is
  empty or blank they leave the string, which C++ leaves undefined. `HeaderNames.ScansInsideIff`,
  `HeaderNames.LineScansInsideIff` and `HeaderParsing.ScansStayInsideIff` say exactly for which names, lines and
  texts; `HeaderNames.ColonAlone` and `HeaderParsing.ColonLineLeaves` give inputs. After such a line the model
  goes on as if it had been refused.
- `flush` deletes also what clients hold (src/Cache.hpp:158-170, `Cache.Cache.Flush`).

## Model

| member | source | states |
|---|---|---|
| QueueInvariant.EveryAct | src/LockFreeQueue.hpp:58-167 | every step of `enq`, `nowait_deq` and `wait_deq` keeps the chain of nodes, the order of `head` and `tail`, the history of values and the thread's own locals, whatever other threads did before |
| QueueInvariant.LocalsKept | src/LockFreeQueue.hpp:90-106 | what a thread has read stays usable while other threads move the pointers forward; this is what makes `next = head->next` sound once `first == head` holds |
| QueueInvariant.NextInv | src/LockFreeQueue.hpp:58-167 | every step of any thread keeps the whole invariant and moves pointers only forward |
| QueueRuns.RunInv | src/LockFreeQueue.hpp:58-167 | the invariant holds in every reachable state |
| QueueRuns.RunForward | src/LockFreeQueue.hpp:62-81 | over any stretch of a run `head`, `tail` and the chain only move forward |
| QueueRuns.PointersInOrder | src/LockFreeQueue.hpp:62-106 | `head` never overtakes `tail`, `tail` is the last or second-to-last node linked, each linked node points to the one linked next and only the last one's `next` is NULL |
| QueueRuns.FirstInFirstOut | src/LockFreeQueue.hpp:58-167 | values dequeued, in order of the `head` exchanges, followed by the values found from `head` on are the values enqueued, in order of the link exchanges; no NULL or wild pointer is ever followed |
| QueueRuns.StepRefinesQueue | src/LockFreeQueue.hpp:58-167 | each step is one abstract step: a link exchange adds at the back, a `head` exchange takes from the front the value it returns, no other step is visible |
| QueueRuns.EmptyInHindsight | src/LockFreeQueue.hpp:89-96 | when a dequeuer has seen "empty" the queue was empty at that iteration's load of `head->next` |
| QueueRuns.FailedMeansProgress | src/LockFreeQueue.hpp:62-136 | an iteration that has to be repeated ends with head position + tail position + nodes linked strictly larger than it began |
| QueueRuns.TwoRefusalsOneSuccess | src/LockFreeQueue.hpp:62-136 | after two refused iterations, of any threads, some operation has taken effect |
| QueueRuns.SemaphoreExact | src/LockFreeQueue.hpp:69-74 | the semaphore is the queue's length less the enqueuers not yet at `up`, plus the takers not yet past `down`, less the sleepers woken; and exactly when it equals the length |
| QueueRuns.NoLostWakeup | src/LockFreeQueue.hpp:106-160 | a thread stuck at `down` with its value, or asleep while the queue is not empty, coexists with a thread about to `up` |
| QueueRuns.TakerSleepsIff | src/LockFreeQueue.hpp:106-109 | the exact condition under which a thread that took a value sleeps at `down` |
| QueueRuns.TakerMaySleep | src/LockFreeQueue.hpp:107-109 | a run in which a thread that took a value sleeps, against the comment |
| QueueCalls.EnqReturns | src/LockFreeQueue.hpp:58-84 | `enq` returns only after its own link exchange in that call: its value was added at the back exactly once, `tail` has reached its node, and the semaphore is raised |
| QueueCalls.NowaitDeqReturns | src/LockFreeQueue.hpp:86-137 | `nowait_deq` returns in two ways only: with the value its own `head` exchange took in this call, exactly once; or with "no", having done nothing visible, after a load in the same iteration at which the queue was empty |
| QueueCalls.WaitDeqReturns | src/LockFreeQueue.hpp:140-167 | `wait_deq` returns only with the value its own `head` exchange took in this call |
| QueueCalls.SleepsOnlyOnEmpty | src/LockFreeQueue.hpp:149-153 | only `wait_deq` goes to sleep without a value, after a load in the same iteration at which the queue was empty |
| QueueCalls.EnqAlone | src/LockFreeQueue.hpp:62-83 | alone, from any memory other threads may leave, `enq` returns within ten steps with its value last, the semaphore raised by one, and `tail` the last node |
| QueueCalls.DeqAlone | src/LockFreeQueue.hpp:89-136 | alone, on an empty queue `nowait_deq` says no and `wait_deq` goes to sleep, with nothing changed; otherwise within thirteen steps the front value is taken |
| QueueCalls.DownAlone | src/LockFreeQueue.hpp:106-160 | what `down` does to a dequeuer with a value, and to one asleep |
| LockFreeQueue.Queue.constructor | src/LockFreeQueue.hpp:40 | a new queue is empty and its semaphore zero |
| LockFreeQueue.Queue.Enq | src/LockFreeQueue.hpp:58-84 | run alone from any state other threads may leave, it ends, the value is last, the semaphore is raised by one, and `tail` no longer lags |
| LockFreeQueue.Queue.NowaitDeq | src/LockFreeQueue.hpp:86-137 | run alone it comes to its end, or to `down` with the value in hand and sleeps there exactly if the semaphore is still 0; it answers no exactly if the queue is empty, and otherwise takes the oldest value |
| Preallocated.ConservedMeans | src/Preallocated.hpp:50-82 | stored blocks are distinct and none is in use; together they number max(numobjs, most ever in use) |
| Preallocated.Allocator.PreallocInit | src/Preallocated.hpp:66-74 | whatever was done before, the blocks given by the system are stored behind the others, each once, and nothing else changes |
| Preallocated.Allocator.New | src/Preallocated.hpp:50-58 | the block handed out was not in use; it is the oldest stored one, and the system gives one only when none is stored |
| Preallocated.Allocator.Delete | src/Preallocated.hpp:60-64 | the block goes to the store, nothing goes back to the system |
| Preallocated.Allocator.PreallocDeinit | src/Preallocated.hpp:76-82 | every stored block is given back once, what is then owned is exactly what is in use, and the balance holds anew |
| Preallocated.Drain | src/Preallocated.hpp:79-81 | the loop takes every stored block, in order |
| Preallocated.TakenFromSystem | src/Preallocated.hpp:53-55 | a block from the system keeps the balance of blocks when the store is empty |
| Preallocated.Reused | src/Preallocated.hpp:53-57 | handing out a stored block keeps the balance, and the block was free |
| Preallocated.GivenBack | src/Preallocated.hpp:60-64 | storing a block that was in use keeps the balance |
| Cache.Cache.Get | src/Cache.hpp:84-96 | a hit returns the stored object and raises its count by one; a miss changes nothing |
| Cache.Cache.Unget | src/Cache.hpp:98-117 | lowers the count; an invalid entry nobody holds any more is evicted at once, any other zero-count entry waits in `toevict` |
| Cache.Cache.AdviseEvict | src/Cache.hpp:211-219 | marks the entry and changes nothing else |
| Cache.Cache.EvictHandle | src/Cache.hpp:191-209 | deletes and removes the entry exactly if it exists and nobody holds it |
| Cache.Cache.Evict | src/Cache.hpp:172-189 | ends, evicts exactly one entry nobody holds, and answers no exactly if every entry is held |
| Cache.Cache.TryAgain | src/Cache.hpp:133-139 | backing out, evicting one entry and trying again keeps `cur` the sum of what is stored and reserved |
| Cache.Cache.Reserve | src/Cache.hpp:132-139 | ends; succeeds with the reservation within the maximum, or fails with everything not held evicted and still no room |
| Cache.Cache.Put | src/Cache.hpp:119-156 | succeeds exactly if the handle is free, sizes of held entries + sz are within the maximum and memory can be had; only entries nobody holds go, no more than needed; on failure for room all of them are gone; every entry ever stored is in the map or deleted |
| Cache.Cache.Insert | src/Cache.hpp:150-155 | stores the entry with count one under a free handle |
| Cache.Cache.Flush | src/Cache.hpp:158-170 | every entry is deleted once, also those clients hold, and the cache is empty with `cur` zero |
| Cache.SizesTrimmed | src/Cache.hpp:132-139 | evicting only entries nobody holds keeps those held, so what stays is between their total size and what was there |
| Cache.EvictedOnce | src/Cache.hpp:132-137 | one eviction, made when there was no room, evicts only what nobody holds and no more than needed |
| CacheSteps.EveryDo | src/Cache.hpp:84-219 | every step of any call keeps counts equal to holds and leaves other threads' objects alone |
| CacheSteps.NoneLostAfter | src/Cache.hpp:98-209 | every step keeps each zero-count entry in `toevict` or in the hands of some thread that will evict it or put it there |
| CacheSteps.CapacityAfter | src/Cache.hpp:132-204 | every step keeps `cur` equal to what is stored, reserved and leaked, and what is stored and granted within the maximum |
| CacheRuns.RunInv | src/Cache.hpp:84-219 | pins, responsibility and capacity hold in every reachable state of any number of threads |
| CacheRuns.PinnedUntilUnget | src/Cache.hpp:84-117 | until as many `unget`s have come as there were holds, the handle stays mapped to the very object, which is not deleted, and its count is the number of holds |
| CacheRuns.HitPins | src/Cache.hpp:84-96 | a hit, and a `put` that succeeds, is one more hold on the object then stored |
| CacheRuns.ZeroCountsWait | src/Cache.hpp:109-206 | an entry nobody holds waits in `toevict` or some thread is dealing with it; when all threads are idle it waits |
| CacheRuns.CapacityKept | src/Cache.hpp:132-204 | under any interleaving stored sizes never exceed the maximum, and `cur` is stored + reserved + leaked |
| CacheRuns.CurWhenIdle | src/Cache.hpp:132-155 | with no call in progress `cur` is the stored size exactly if no `put` ever lost the second lookup |
| CacheRuns.LeakedIff | src/Cache.hpp:150-155 | something is left behind in `cur` exactly if some `put` lost the second lookup |
| CacheRuns.LeakShrinksCache | src/Cache.hpp:132-139 | an object that does not fit beside what leaked is never granted room again |
| CacheRuns.TwoPutsLeak | src/Cache.hpp:119-156 | for every size and maximum, a run of two puts that leaves one size behind |
| CacheCalls.GetAlone | src/Cache.hpp:84-96 | in the step machine a hit raises the count and changes nothing else |
| CacheCalls.AdviseAlone | src/Cache.hpp:211-219 | in the step machine advice marks the entry and changes nothing else |
| CacheCalls.UngetAlone | src/Cache.hpp:98-117 | an `unget` during which no other thread steps lowers the count; after the last hold the entry is evicted and deleted exactly if it was invalid, and otherwise stays with count 0 and waits in `toevict` |
| CacheCalls.PutAlone | src/Cache.hpp:119-156 | a `put` during which no other thread steps stores the entry, once, exactly if the handle is free and there is room beside what cannot be evicted, is reserved and has leaked, and memory can be had; only entries nobody holds go and are deleted, no more than needed, all of them if there is no room; nothing leaks |
| CacheCalls.RoomMeans | src/Cache.hpp:132-139 | what stands beside the stored entries is what is reserved and what leaked; with all threads idle what cannot be evicted is what clients hold |
| CacheCalls.PutEnds | src/Cache.hpp:132-139 | every step of a `put` alone brings its end closer |
| FindWork.WorkMap.Find | src/FindWork_prealloc.hpp:93-108 | returns the object registered for the descriptor, or makes and registers a new one; nothing else changes |
| FindWork.WorkMap.Unregister | src/FindWork_prealloc.hpp:44-55 | takes the descriptor out, and keeps the map in agreement with the open descriptors |
| FindWork.WorkMap.RegisterAlien | src/FindWork_prealloc.hpp:57-67 | registers an object exactly if there is one and its descriptor is free |
| FindWork.WorkMap.Delete | src/HTTP_2616_Server_Work.cpp:37-40 | unregistering and then closing keeps the map in agreement throughout, takes that entry out, and closes its descriptor unless it is the listening one |
| FindWork.WorkMap.Close | src/Work.cpp:19-27 | a descriptor no longer in the map is closed, except the listening one |
| FindWork.WorkMap.Accept | src/Scheduler.cpp:232-255 | an accepted descriptor, even one used before, gets a new object |
| FindWork.WorkMap.Clear | src/FindWork_prealloc.hpp:77-91 | every object in the map is deleted once, every descriptor in it but the listening one closed, and the map is empty |
| Worker.Work | src/Worker.cpp:13-38 | executes exactly the jobs before the first pill, in order, puts the pill back behind what is left, and retires; without a pill it executes every job and sleeps |
| Dispatch.WaitInv | src/Scheduler.cpp:158-167 | reporting a batch keeps the invariant: reported connections are disarmed and pending, each once |
| Dispatch.NextEventInv | src/Scheduler.cpp:190-228 | taking the next event of the batch keeps the invariant |
| Dispatch.AcceptInv | src/Scheduler.cpp:232-253 | accepting any descriptor not open keeps the invariant |
| Dispatch.FindInv | src/FindWork_prealloc.hpp:93-108 | find-or-make keeps the invariant |
| Dispatch.AddInv | src/Scheduler.cpp:98-115 | `schedule` never fails and keeps the invariant |
| Dispatch.EnqueueInv | src/Scheduler.cpp:213-220 | queueing a job keeps the invariant |
| Dispatch.UnregisterInv | src/Scheduler.cpp:206-212 | the scheduler's delete of a hung-up connection unregisters a live object no worker has |
| Dispatch.CloseInv | src/Work.cpp:19-27 | closing its descriptor afterwards keeps the invariant |
| Dispatch.TakeInv | src/Worker.cpp:17-24 | a worker's dequeue keeps the invariant |
| Dispatch.CallInv | src/Worker.cpp:25-34 | a call with any outcome keeps the invariant; rescheduling never fails |
| Dispatch.NextInv | src/Scheduler.cpp:80-279 | every step of scheduler and workers keeps the invariant; no epoll_ctl fails and no dead object is used |
| DispatchRuns.OnePlacePerConnection | src/Scheduler.cpp:165-227 | in every reachable state each live connection is in exactly one of epoll, the batch, the queue, a worker's hands, the scheduler's hands, or dormant, and there once |
| DispatchRuns.WorkMapAgrees | src/FindWork_prealloc.hpp:44-108 | every key of the work map is an open descriptor and maps to the one live object owning it; epoll watches only open descriptors; nothing has failed |
| DispatchRuns.AcceptedGetsNewObject | src/Scheduler.cpp:253 | an accepted descriptor always gets a new object, even if its number was used before, and epoll does not know it yet |
| DispatchRuns.DispatchedIsArmed | src/Scheduler.cpp:190-220 | the object found for an event is the one that was armed when the kernel reported it, unchanged, whatever workers did in between, and its mode is the kind of the event |
| DispatchRuns.NeverPuzzled | src/Scheduler.cpp:206-223 | the last branch is unreachable; a bad event leads to deletion, any other to queueing for what the object waits for; never both readable and writable |
| DispatchEvents.CallEnds | src/Worker.cpp:25-34 | a call that reschedules leaves the connection watched for exactly what it asked for; one that is done leaves it to the worker to delete; one that goes dormant leaves it open and in the work map, watched by nobody |
| DispatchEvents.DoneIsDeleted | src/Worker.cpp:29-34 | after a call that is done the worker's next two steps delete the connection: it is gone, and its descriptor closed and unknown to epoll and the work map |
| DispatchEvents.DormantIsKept | src/Work.hpp:13-16 | after a call that goes dormant the connection stays alive, open and in the work map, and is not watched |
| DispatchEvents.DormantOnlyBy | src/Work.hpp:13-16 | only such a call of its own makes a connection dormant |
| DispatchEvents.GoneOnlyBy | src/Scheduler.cpp:206-212 | a connection whose end was not decided is gone later only if in between a call of it was done or the kernel reported an error or hangup of its descriptor |
| DispatchEvents.BadIsDeleted | src/Scheduler.cpp:206-212 | a connection found for an error or hangup is gone with the scheduler's next two steps, and its descriptor closed |
| DispatchEvents.FoundIsQueued | src/Scheduler.cpp:213-220 | one found for reading or writing is queued behind all jobs with the scheduler's next step |
| DispatchEvents.AcceptedIsWatched | src/Scheduler.cpp:232-255 | an accepted descriptor is, two steps of the scheduler later, watched for reading by a new object |
| DispatchEvents.TakenInOrder | src/Worker.cpp:17-24 | a worker takes the oldest job or the pill |
| DispatchEvents.NobodyStuck | src/Scheduler.cpp:158-228 | scheduler and workers can always go on, except where they wait for work or have retired |
| DispatchRuns.StoppingIff | src/Scheduler.cpp:310-315 | the server is stopping exactly from a halt signal on |
| DispatchRuns.HaltQueuesPill | src/Scheduler.cpp:310-315 | after a halt signal the scheduler's next step queues the pill behind all jobs |
| DispatchRuns.OnePill | src/Scheduler.cpp:310-315 | from `halt` on there is exactly one pill, last in the queue or with one worker and then the queue is empty; before there is none |
| DispatchRuns.NothingAfterHalt | src/Scheduler.cpp:224-229 | after `halt` no job is queued and the scheduler only retires |
| DispatchRuns.PillLast | src/Worker.cpp:17-24 | when a worker has the pill every job queued was taken |
| DispatchRuns.ShutdownDecreases | src/Worker.cpp:13-38 | after a halt signal every step makes jobs left and live workers fewer |
| DispatchRuns.ShutdownEnds | src/Worker.cpp:13-38 | so at most so many steps follow a halt signal |
| DispatchRuns.StuckMeansRetired | src/Scheduler.cpp:224-229 | when after a halt signal no step is possible, the scheduler and all workers have retired, the pill is alone in the queue, and every connection is armed, pending or dormant |
| ThreadPool.EraseSelf | src/ThreadPool.hpp:97-117 | the loop of the exit callback erases the thread's last entry and signals exactly if it found itself and the list is then empty |
| ThreadPool.ErasedIs | src/ThreadPool.hpp:102-109 | with one entry for the thread, exactly that entry goes |
| ThreadPool.NextInv | src/ThreadPool.hpp:97-136 | every step of the owner and of the threads keeps the invariant |
| ThreadPool.ExitingThreadFindsItself | src/ThreadPool.hpp:97-117 | every exiting thread finds itself, and takes only itself out |
| ThreadPool.ReturnsLast | src/ThreadPool.hpp:119-126 | the destructor returns only when every thread has left the list and the callback |
| ThreadPool.AllRanAndLeft | src/ThreadPool.hpp:119-136 | when the destructor returns, as many threads were started, have taken themselves out and have left the callback as the pool has thread objects |
| ThreadPool.NoLostWakeup | src/ThreadPool.hpp:108-124 | when the owner sleeps with an empty list a thread is about to signal it |
| ThreadPool.EndingDecreases | src/ThreadPool.hpp:97-136 | once all threads are started every step but a spurious wakeup brings the end closer |
| ThreadPool.TeardownEnds | src/ThreadPool.hpp:97-126 | so, without spurious wakeups, at most so many steps follow |
| ThreadPool.NeverStuck | src/ThreadPool.hpp:97-136 | until the destructor has returned some step other than a spurious wakeup is possible |
| HeaderNames.NamesDistinct | data/HTTP_headers.def:3-49 | no two headers have the same name |
| HeaderNames.PrintedIsRead | src/HTTP_constants.cpp:104-151 | a printed header name, followed by anything, is read back as that header |
| HeaderNames.ReadIffSpelled | src/HTTP_constants.cpp:104-139 | a line is read as header h exactly if it is white space, the name with a hyphen or underscore at each underscore, white space, a colon, anything |
| HeaderNames.UnderscoreInPlace | src/HTTP_constants.cpp:116-119 | the loop replaces every hyphen and nothing else |
| HeaderNames.TrimScan | src/HTTP_constants.cpp:121-127 | the two scans take exactly the white space off both ends, or leave the string |
| HeaderNames.ScansInsideIff | src/HTTP_constants.cpp:121-127 | the scans stay inside the string exactly if something in it is not white space, and then `substr` takes the trimmed string |
| HeaderNames.LineScansInsideIff | src/HTTP_constants.cpp:109-125 | reading a line's name stays inside it exactly if the line is not white space, a colon, anything |
| HeaderNames.ColonAlone | src/HTTP_constants.cpp:121-125 | for ":" and " :" the scans leave the string |
| HeaderNames.FindName | src/HTTP_constants.cpp:130-137 | the search finds the first header of that name |
| HeaderNames.ReadHeader | src/HTTP_constants.cpp:104-139 | the reader as a whole: the header and what stays in the stream, or the exception, or that a scan leaves the string |
| HeaderNames.PrintHyphenated | src/HTTP_constants.cpp:143-148 | the loop prints hyphens for underscores |
| HeaderNames.PrintHeader | src/HTTP_constants.cpp:141-151 | the printer as a whole |
| HeaderNames.SpacesAre | src/HTTP_constants.cpp:122-125 | which characters are white space |
| HeaderParsing.ParseResumes | src/HTTP_parsing.cpp:23-67 | more text does not change what was decided, and parsing can resume from the unread end if each CR has its LF |
| HeaderParsing.KeptStored | src/HTTP_parsing.cpp:28-55 | the headers after a call are what storing the lines kept, in order, gives |
| HeaderParsing.TooLongIff | src/HTTP_parsing.cpp:28-31 | the parser throws exactly if the text is lines within the limit, each ended, and then a line beyond it, ended or not |
| HeaderParsing.ScansStayInsideIff | src/HTTP_parsing.cpp:43-54 | a call of the parser stays within what C++ defines exactly if no line kept without the version has only white space before its first colon |
| HeaderParsing.ColonLineLeaves | src/HTTP_parsing.cpp:43-54 | a line that is a colon alone takes it out |
| HeaderParsing.SplitIsSafeIff | src/HTTP_parsing.cpp:32-38 | a split after which the parser asks for more is harmless for every continuation exactly if each CR before it has its LF before it |
| HeaderParsing.ChunkingDoesNotMatter | src/HTTP_parsing.cpp:23-67 | for any number of chunks that do not separate a CR from its LF, the verdict, headers and unread remainder are those of one parse of the whole |
| HeaderParsing.RoundTripIff | src/HTTP_parsing.cpp:23-78 | parsing printed headers, whatever follows, gives the same headers and leaves exactly what follows, if and only if each line fits its slot, has no CR and is within the limit |
| HeaderParsing.PrintedLineFits | src/HTTP_constants.cpp:104-151 | a line that begins with a printed header name is one the round trip covers, in that header's slot, exactly if its value has no CR, it does not name the version, and it is within the limit |
| HeaderParsing.ContainsIff | src/HTTP_parsing.cpp:43 | a line is taken for a request or status line only if the version is somewhere in it |
| HeaderParsing.ParsedWellFormed | src/HTTP_parsing.cpp:42-54 | whatever the parser stores it would put back in the same slot |
| HeaderParsing.DoneConsumes | src/HTTP_parsing.cpp:56-60 | a message that is complete takes at least its last CR LF |
| HeaderParsing.PipelineRoundTrip | src/HTTP_parsing.cpp:23-78 | n requests printed one after the other come back one by one, in order, and nothing of what follows is lost |
| HeaderTexts.SlotIff | src/HTTP_parsing.cpp:43-54 | exactly which lines go to which slot: those naming "HTTP/1.1" to the last, the others to that of the header they are for |
| HeaderTexts.StoredLast | src/HTTP_parsing.cpp:43-54 | of the lines kept the last one for a slot stays |
| HeaderTexts.DoneIff | src/HTTP_parsing.cpp:23-67 | the parser is done exactly if the text begins with lines within the limit and an empty line; what follows stays unread, and those lines were stored in order |
| HeaderTexts.NeedMoreLeaves | src/HTTP_parsing.cpp:32-38 | when it asks for more it has stored the ended lines and left the rest, but for one character if that has a CR |
| HeaderTexts.LimitIsExact | src/HTTP_parsing.cpp:30-31 | as many characters as the limit are allowed, one more is not |
| HeaderTexts.PrintedInOrder | src/HTTP_parsing.cpp:69-78 | a message is printed as its lines, each once and ended, in strictly descending order of slots, and then an empty line |
| HeaderTexts.RequestLineFirst | src/HTTP_parsing.cpp:71-77 | the request or status line is printed first |
| HeaderStream.Input.GetLine | src/HTTP_parsing.cpp:28 | `getline` as the parser uses it: the line, the position after its end, the flags at the end of the text |
| HeaderStream.Input.HasNext | src/HTTP_Server_Work.cpp:122-146 | the ignore-and-unget test tells exactly whether a character is left, and loses none |
| HeaderStream.TakeLine | src/HTTP_parsing.cpp:28-66 | one turn of the parser's loop on the stream: the line taken or the verdict, and exactly the text left unread |
| HeaderStream.StoreLine | src/HTTP_parsing.cpp:42-54 | a line is put into its slot or ignored |
| HeaderStream.Extract | src/HTTP_parsing.cpp:23-67 | the parser on a stream does what the parser on the unread text says, and leaves the stream's flags clear |
| HeaderStream.Insert | src/HTTP_parsing.cpp:69-78 | the printing loop prints what `Print` says |
| Connection.ReadsEverything | src/Work.cpp:29-45 | all data before the first answer that stops the loop is read exactly if it has no NUL, and the exact error returned |
| Connection.ReadsBeginnings | src/Work.cpp:34-37 | with NULs, each read gives its beginning up to the first one |
| Connection.EndOfFileErrno | src/Work.cpp:29-45 | 0 is returned exactly at the end of the file, EINTR exactly at the end of the file after an interrupted read |
| Connection.WritesWhatFits | src/Work.cpp:65-79 | as much is written as is accepted, and 0 is returned exactly if that is everything |
| Connection.StopsShort | src/Work.cpp:65-79 | the exact error returned otherwise |
| Connection.HdrsWholeIff | src/HTTP_Server_Work.cpp:86-91 | the headers written are all the headers prepared exactly if they have no NUL and do not fill the buffer |
| Connection.HdrsCutExactly | src/HTTP_Server_Work.cpp:86-91 | cut headers are the longest beginning without NUL that fits the buffer |
| Connection.OopsHdrs | src/HTTP_Server_Work.cpp:77-85 | for an error, its own headers, "Content-Length: " with the number of characters of its text, and an empty line; then the text |
| Connection.DecimalIs | src/HTTP_Server_Work.cpp:84 | the number printed is that number, in digits without leading zeros |
| Connection.RepliesWholeIff | src/HTTP_Server_Work.cpp:86-91 | any number of answers is written whole exactly if none is cut |
| Connection.CallConserved | src/HTTP_Server_Work.cpp:32-156 | for any partial writes, interruptions, blocking and errors a call keeps bytes sent + bytes remaining equal to the answers so far, headers then body |
| Connection.CallFollows | src/HTTP_Server_Work.cpp:32-156 | a call that goes on loses no byte of input and misreads no request, also when it resets and turns to the next request |
| Connection.ReceivesWhatIsRead | src/HTTP_Server_Work.cpp:36-41 | exactly when a call reads, and that all it reads is received |
| Connection.RestsIff | src/HTTP_Server_Work.cpp:103-149 | exactly when a call itself finds the answer sent and leaves the connection dormant, or done with |
| Connection.SocketErrIff | src/HTTP_Server_Work.cpp:42-43 | exactly when a call throws a socket error: a read fails, or meets the end of the file after an interruption, or a write fails |
| Connection.EndOfFileIsBlocking | src/Work.cpp:29-45 | without an interruption a call cannot tell the end of the file from a read that would block |
| Connection.LineTooLongIff | src/HTTP_Server_Work.cpp:48-49 | the parser's exception leaves a call exactly if it reads without a socket error and the unread text then has a line beyond the limit after kept lines only |
| Connection.FourAreTooMany | src/HTTP_Server_Work.cpp:48-49 | an input for which it does |
| Connection.FateIff | src/Worker.cpp:26-34 | exactly what becomes of a connection after each outcome of its call |
| Connection.DeletedIff | src/Worker.cpp:26-34 | a worker deletes a live connection exactly on a socket error or as soon as a request is taken whose answer asks for closing; never because that answer was sent |
| Connection.ClosingAnswerUnsent | src/Worker.cpp:26-34 | in the latter case all earlier answers were sent and no byte of this one |
| ConnectionRuns.RunConserves | src/HTTP_Server_Work.cpp:97-118 | after any number of calls bytes sent + bytes remaining = all answers; while reading nothing remains, so a reset happens only when exactly the answers were sent |
| ConnectionRuns.RunFollows | src/HTTP_Server_Work.cpp:48-147 | after any number of calls the requests taken and those in the unread text are the messages of all the input, whatever comes next |
| ConnectionRuns.ReceivedIff | src/Work.cpp:34-37 | the text received is the bytes the kernel delivered exactly if they have no NUL |
| ConnectionRuns.EndToEnd | src/HTTP_Server_Work.cpp:32-156 | if a client pipelines well-formed requests and what the kernel delivered of them has no NUL, the requests taken are a prefix of them and the bytes sent a prefix of the answers, in order, for any sizes of reads and writes; of the whole answers if none is cut |
| ConnectionRuns.AllAnswered | src/HTTP_Server_Work.cpp:117-147 | when all was delivered and the connection waits for input, every request was taken and every answer sent, whole exactly if none is cut |
| ConnectionRuns.ClosingAnswerIsLost | src/Worker.cpp:26-34 | in any run the worker deletes the connection exactly if the last request taken has an answer that asks for closing; no byte of that answer is sent, and no call ever finds such an answer sent |
| ConnectionRequests.LengthIff | src/HTTP_Server_Work.cpp:51 | the slot the code looks at has a line exactly if a line stored is for the header Content-Length |
| ConnectionRequests.TakenInRunIff | src/HTTP_Server_Work.cpp:48-75 | in any run the next call takes a request exactly if it reads without a socket error, the unread text then begins with a whole message, and no line of it is for Content-Length; then the whole answer remains to be sent; it stops at a request with a body exactly if one is |
| ConnectionRequests.RequestIsTaken | src/HTTP_Server_Work.cpp:48-92 | a well-formed request without a body is taken by the call that reads it, and its whole answer remains to be sent |
| ConnectionRequests.HdrsAreSent | src/HTTP_Server_Work.cpp:103-110 | the call that writes the last of the headers puts the body in their place |
| ConnectionRequests.BodyIsSent | src/HTTP_Server_Work.cpp:117-147 | the call that writes the last of the body waits for the next request |
| ConnectionRequests.RequestIsServed | src/HTTP_Server_Work.cpp:32-156 | without assuming how any call ends: three calls read a request, send its whole answer, and leave the connection waiting for the next |
| ConnectionRequests.GoodInputIsServed | src/HTTP_Server_Work.cpp:32-156 | if a client sends well-formed requests without bodies, in any run no call stops at a body or throws for a long line |
| ServerWork.ReadInto | src/Work.cpp:29-45 | the reading loop appends to the stream exactly what `ReadUntil` says |
| ServerWork.Server.constructor | src/HTTP_Server_Work.cpp:21-25 | a new object is in the fresh state |
| ServerWork.Server.WriteOut | src/Work.cpp:65-79 | the writing loop advances the pointer over exactly the bytes sent |
| ServerWork.Server.Respond | src/HTTP_Server_Work.cpp:86-92 | the object starts to write the prepared headers and keeps the body for later |
| ServerWork.Server.Reset | src/HTTP_Server_Work.cpp:241-255 | everything is cleared but the unread text |
| ServerWork.Server.ReadRequest | src/HTTP_Server_Work.cpp:38-94 | the branch for reading, with the parser run on the stream, does what `ReadPhase` says (see `ConnectionRequests`) |
| ServerWork.Server.WrittenOut | src/HTTP_Server_Work.cpp:103-149 | after the headers the body, after the body dormant, done, or the next request |
| ServerWork.Server.WriteResponse | src/HTTP_Server_Work.cpp:97-153 | the branch for writing does what `WritePhase` says |
| ServerWork.Server.Call | src/HTTP_Server_Work.cpp:32-156 | one call of the object, with all its fields, is exactly one `Connection.Call` |
| ServerWork.Server.WorkerTurn | src/Worker.cpp:26-34 | a worker's turn with the object is exactly one `Connection.Turn` |

## Left out

- QueueSteps: node reuse, `delete first` and weak memory, which the queue's own header disclaims.
- LockFreeQueue.Queue: `wait_deq` is in the step machine only; run alone on an empty queue it sleeps.
- Cache.Cache.Flush: flushing while other threads are in a call; what a client still holds then is not modelled.
- Cache.Cache.Put: is split into `TryAgain`, `Reserve` and `Insert`, which are its loop body, its loop and its last part; sizes are unbounded, so `size_t` does not wrap around.
- CacheSteps: on values, because its threads interleave; `flush` is not part of it.
- Dispatch: on values, because its threads interleave. It does not model old-fashioned signal handlers, errors of `accept` and `fcntl`, dormant work being woken, Unix-domain client work, the time between a reschedule inside a call and the worker's look at `deleteme`, or an exception that leaves a worker.
- ThreadPool: on values, because its threads interleave; the emergency yank, signal masks and a pool destroyed without being started are not part of it.
- FindWork.WorkMap: the lock, and the preallocation done by its constructor and destructor (see `Preallocated`).
- Worker.Work: executing a job and deleting it (see `Dispatch` and `ServerWork`).
- HeaderNames.ReadHeader: what a program does after a scan has left its string, which C++ does not say.
- HeaderStream.Extract: is asked for only with the stream's flags clear, which is how it is called.
- Connection: request bodies and Content-Length counting. A call that meets a request with that header ends as `BodyExpected`.
- ConnectionRuns.Run: the calls after a connection was left dormant, because what wakes it is not modelled.
- ServerWork.Server: the buffer `cbuf`, shared by reading and the response headers, is modelled by the strings in it; `async_setresponse` and waking a dormant connection are not modelled.
- The queue with two locks (`DoubleLockedQueue.hpp`): its test for emptiness is made without the lock that would make it mean something.
- The classes for RFC 2616 (`HTTP_2616_Server_Work.cpp`, `HTTP_CacheEntry.cpp`): ages, cache lookups and resetting of their own fields.
- Request lines, methods, status lines, MIME types, dates, compression, files, sockets, privileges, logging, the command line: input and output, wrappers or lookups.
