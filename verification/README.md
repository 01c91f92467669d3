# Verification of the lynetx core

lynetx is a small C++ networking library: a thread pool whose workers each own a bounded message queue, a byte buffer
with typed reads and writes, and an epoll-driven TCP service with a registry of connections. This project models that
core in Dafny and proves what it keeps over every run. Nothing of the original was executed.

    dafny verify dfyconfig.toml

## How the model is built

* **Atomic sections.** What an operation does under the mutex is a function on the shared state (`QueueSpec`). The
  class `MsgDeque` strings the sections together for one call; the interleaving models run the same sections one at a
  time, with the unlocked tests and the semaphore operations as steps between them.
* **Schedules.** A concurrent run is a list of (thread, choice) pairs, and a choice that a thread cannot make leaves the
  state alone. A lemma about every schedule is therefore a lemma about every interleaving, of any length.
* **Objects.** `MsgDeque`, `ThreadObject`, `ThreadPool`, `IOBuffer`, `EpollWatch` and `TcpService` are classes with the
  fields of the original; each method is proved against a function on values, and the run theorems are about those
  functions.
* **The mutex.** A section under a mutex is one step, except AbortWait: its flag is read without the mutex, so the flag
  and the posts are two steps with the mutex held between them. The statements about every schedule also cover
  schedules that go on in between, which is more than the code can do. The runs built to show that something fails
  respect the mutex, and the if-and-only-if theorems say so (`Respects`).
* **The outside world.** Semaphores are POSIX counting semaphores that fail with EOVERFLOW at SEM_VALUE_MAX; the host is
  little-endian with a signed `char`. Signals, deadlines, fresh descriptors, thread ids, the chunks a socket delivers
  and the answers of getpeername and epoll_ctl are parameters or choices of the schedule.

## Main results

* **Queue** (`QueueProtocol`, `QueueReplay`, `QueueSafety`, `QueuePrograms`). In every run of all ten operations by any
  number of threads, the number of elements is the semaphore count, plus the tokens in threads' hands, plus a balance
  read off the event log (`LedgerLaw`). From it, for an **arbitrary set of allowed operations**: every run keeps exactly
  one token an element **if and only if** the program has no abort and no Clear, has no range of a length other than one
  accepted, and adds nothing or spends no token on `Front`, `Back` or `PushFront` (`OneTokenEachIff`); and `Back` and
  `PopBack`, which do not look whether the deque is empty, are defined in every run **if and only if** they are not
  used, or no empty range is ever accepted and either nothing is ever added or there is no `Clear` and no abort together
  with a pop (`BackIsSafeIff`, for two threads or more). The size keeps to the limit at every moment of a run **if and
  only if** no change of the limit cuts below the size. The deque is the replay of the event log on a plain sequence, in
  order and for all ten operations, and every element shown or removed was the one at its end (`ReplayLaw`,
  `LastInFirstOut`). After an abort only threads already past their unlocked test can still push (`QueueAbort`).
* **One call** (`QueueSolo`). Each operation run alone, step by step and by every schedule, gives the state and the
  answer that the class method is proved to give, and it can return **if and only if** the call does not wait for ever.
* **Worker** (`WorkerProtocol`, `WorkerRuns`). Accepted tasks are, in order, started ++ in hand ++ discarded ++ queued.
  Before the abort, once the pushes stop, eight turns of the worker a queued task (and one a signal) leave every
  accepted task started. At most one task begins after the flag is set; once one AbortWait has completed, ten turns of
  its own bring the worker to its exit with one post of the ready semaphore. Not every accepted task is started or
  thrown away: from the moment a canceller sets the flag all of them are sure to be, in every continuation, **if and
  only if** no producer is then past its flag test (`NothingLostIff`). The exited status is never written over **if and
  only if** no producer is about to count a task or to have one taken. The busy counter obeys a law modulo 2^64, and can
  come to wrap below zero **if and only if**, before the abort, there is a producer at all, and after it, less is left
  to count than tasks can still begin (`WrapIff`).
* **Schedulers** (`Scheduling`, `ThreadPool`). FCFS is exact round-robin. With HRP the longest queue ever seen is
  **exactly** the largest total ever queued divided by the number of threads, rounded up; without completions HRP deals
  in key order. Removing a thread ends FCFS until threads are created again: the rotation loses its elements and keeps
  its tokens, and every later choice falls back to HRP (`RemoveThreadObject`, `NoChoiceAfterRemoval`).
* **Buffer** (`ByteOrder`, `IOBuffer`, `ByteStream`). htonl works on 32 bits whatever the width of the value. What any
  bytes read as and what any value is stored as are determined at every width, every value's read-back is too, and the
  values that come back unchanged are characterised: every int32, int64 in [0, 2^32), and 0 and -1 among the narrower
  ones. Any script of mixed writes, reads and growth keeps its framing, and the reads return the written items **if and
  only if** all of them are of that kind; the object, run through the script, hands out those very values
  (`PerformAll`).
* **Receive loop and its tasks** (`RecvLoop`, `RecvTasks`). The drain loop stays inside its buffer **if and only if**
  everything from the first short read on fits one megabyte; then the buffer is the concatenation of all chunks. A task
  that gets no byte drops the client even if the client is alive: over a whole run that can never happen **if and only
  if** bytes never come while a task of the socket is queued or running (`LiveClientIff`). The other way round, a
  silent open socket can be left open for good **if and only if** its edges and tasks that have read nothing are no more
  than the reads it takes to drain it (`KeptIff`), which is so for a client that sends and closes at once.
* **Registry and event array** (`InetAddr`, `RegistrySpec`, `RegistryRace`, `EventSizing`). Keys are injective, and read
  from the front they are the address and the port in network order (`KeyReads`). With accept and drop as single steps
  the two maps stay inverses at every moment of a run **if and only if** no client arrives whose peer is connected
  already, and in every run the count is clients + 2 **if and only if** epoll took every client. With the drop as the
  four steps it is, made by any number of tasks on any sockets: after every move of a run, however the drops in progress
  finish, the maps agree and the client that has just come is served, **if and only if** no client ever arrives while a
  drop works on its descriptor or its text, or with a peer that is connected already (`SettlesIff`). Such arrivals
  happen: between the close and the removal of one drop, and before the close of a second task's (`ReuseCollides`,
  `SecondTaskCollides`). The event array is large enough for every wait **if and only if** at most 1000 sockets are
  accepted a pass.

Where the code and the expectation part, the code is modelled: `AddThreadTask` answers false in every case;
`WaitforNotFull` waits on the not-empty semaphore, so `PushFront` spends a token; `Insert` posts once for any number of
elements and refuses a range that would fill the queue exactly; the refusal of a string write is 0 and not -1; `skip`
moves the write cursor. The comment at base/src/ThreadObject.cpp:16 calls the wait 30 microseconds, the code makes it
30000 milliseconds; the comment at base/src/ThreadPool.cpp:34 calls HRP a highest-response-ratio scheduler, the code
picks the least busy thread.

## Model

| member | source | states |
|---|---|---|
| QueueProtocol.LedgerLaw | base/src/MsgDeque.h:109-300 | in every run of every operation: elements = semaphore count + tokens held by threads + the balance of the logged events |
| QueueReplay.ReplayLaw | base/src/MsgDeque.h:109-265 | in every run of all ten operations the deque is the log replayed on a plain sequence, and every element popped, drained or shown was the one at its end |
| QueueReplay.StepsLogTheirOwn | base/src/MsgDeque.h:109-265 | each step logs only what its own operation may: its end, its value, its range and position |
| QueueReplay.LastInFirstOut | base/src/MsgDeque.h:128-175 | in every run what a front push put in is what the next front pop takes, if nothing went in at the front or came out in between |
| QueueReplay.NotFullLaw | base/src/MsgDeque.h:39-54 | in every run the not-full semaphore is the first limit plus a post a pop and an abort, up to SEM_VALUE_MAX |
| QueueSafety.TokenSafety | base/src/MsgDeque.h:109-249 | without empty inserts, for as long as nobody has aborted: tokens never outnumber elements, every post is received, back() never meets an empty deque |
| QueueSafety.LimitKeptIff | base/src/MsgDeque.h:56-62 | in every run the size stays within the limit at every moment exactly when no SetMaxQueueSize cuts below the size of that moment |
| QueueSafety.CapacityBound | base/src/MsgDeque.h:39-62 | size and limit stay within SEM_VALUE_MAX in every run |
| QueueSafety.FifoConservation | base/src/MsgDeque.h:128-157 | accepted = taken out ++ still queued, in order, aborts and Clear included |
| QueueSafety.ElementConservation | base/src/MsgDeque.h:109-265 | in every run of every operation no element is lost or doubled |
| QueuePrograms.OneTokenEachIff | base/src/MsgDeque.h:109-265 | for any set of operations, every run keeps one token an element exactly when there is no abort and no Clear, no accepted range of a length other than one, and nothing is added or no token is spent on Front, Back or PushFront |
| QueuePrograms.NoLostWakeup | base/src/MsgDeque.h:128-157 | in such a program, when the count is zero the token holders are exactly as many as the queued elements, and a token holder always finds an element |
| QueuePrograms.BackIsSafeIff | base/src/MsgDeque.h:177-217 | for any set of operations and two threads or more, Back and PopBack are defined in every run exactly when unused, or no empty range is accepted and either nothing is added or there is no Clear and no abort together with a pop |
| QueueSolo.SoloCall | base/src/MsgDeque.h:109-300 | each of the ten operations run alone, by every schedule of its steps that brings it back, gives the state and the answer of the call |
| QueueSolo.ReturnsIff | base/src/MsgDeque.h:268-300 | an operation run alone can come back exactly when its call does not wait for ever, with the mutex respected if it is free at the start |
| QueueAbort.LatePushesAreBounded | base/src/MsgDeque.h:219-232 | after the flag is set at most as many pushes commit as threads were past their unlocked test |
| MsgDeque.MsgDeque.SetMaxQueueSize | base/src/MsgDeque.h:56-62 | the outcome of the call SetMax: the clamped limit, nothing else |
| MsgDeque.MsgDeque.AbortWait | base/src/MsgDeque.h:78-85 | the outcome of the call Abort: the flag, then one post on each semaphore |
| MsgDeque.MsgDeque.WaitforNotEmpty | base/src/MsgDeque.h:268-300 | a token if and only if the count is positive and the flag is down, however often the wait is interrupted; sleeps for ever exactly without deadline, token and flag |
| MsgDeque.MsgDeque.Front | base/src/MsgDeque.h:109-126 | the outcome of the call, on every state: a token spent, the first element shown, or a wait for ever |
| MsgDeque.MsgDeque.PopFront | base/src/MsgDeque.h:128-157 | the outcome of the call, on every state: with a token, and on an aborted queue without |
| MsgDeque.MsgDeque.PushFront | base/src/MsgDeque.h:159-175 | on every state: a token is spent before the push, also when the push is refused, and the element goes to the front |
| MsgDeque.MsgDeque.Back | base/src/MsgDeque.h:177-190 | the outcome of the call, on every state: the last element, undefined for a token on an empty deque |
| MsgDeque.MsgDeque.PopBack | base/src/MsgDeque.h:192-217 | the outcome of the call, on every state, both branches, undefined for a token on an empty deque |
| MsgDeque.MsgDeque.PushBack | base/src/MsgDeque.h:219-232 | the outcome of the call: accepted exactly when not aborted and not full, with one post |
| MsgDeque.MsgDeque.Insert | base/src/MsgDeque.h:234-249 | the outcome of the call: accepted exactly when not aborted and size + range is below the limit; one post |
| MsgDeque.MsgDeque.Clear | base/src/MsgDeque.h:258-265 | the outcome of the call: aborted, empty, with the tokens left behind |
| WorkerProtocol.TaskConservation | base/src/ThreadObject.cpp:61-132 | accepted = started ++ in hand ++ discarded ++ queued, in commit order, in every run |
| WorkerProtocol.StatusLaw | base/src/ThreadObject.cpp:79-132 | in every run the status is running only inside a task, exited only behind Clear, asleep only elsewhere, and waiting only once a task was accepted |
| WorkerProtocol.NoLostWakeup | base/src/ThreadObject.cpp:88-100 | before the abort a worker stuck in its wait has an empty queue and a worker with a token finds a task |
| WorkerProtocol.AllStarted | base/src/ThreadObject.cpp:88-114 | before the abort, once no further push commits, eight worker turns a queued task, one for a task in hand and one a signal leave every accepted task started |
| WorkerProtocol.BusyLaw | base/src/ThreadObject.cpp:68-93 | the busy counter modulo 2^64 is queued + discarded + one popped and not counted down - pushed and not counted up |
| WorkerProtocol.BusyAtRest | base/src/ThreadObject.cpp:68-93 | with nothing on its way the counter is exactly queued + discarded |
| WorkerRuns.WrapIff | base/src/ThreadObject.cpp:68-93 | from any state of any run some continuation wraps the counter below zero exactly when, before the abort, there is a producer, and after it, less is left to count than tasks can still begin |
| WorkerProtocol.AtMostOneLateTask | base/src/ThreadObject.cpp:79-117 | in every run at most one task begins after the flag is set; ready is posted once exactly when the worker has exited |
| WorkerProtocol.BoundedShutdown | base/src/ThreadObject.cpp:51-132 | from any state of any run in which one AbortWait has completed, ten turns of the worker reach the exit, with one ready post, at most one task begun since the flag, and a status that says exited or was written over by a late producer |
| WorkerProtocol.ExitIsFinal | base/src/ThreadObject.cpp:122-132 | after the exit nothing starts any more; pushes only lengthen the queue |
| WorkerRuns.StrandedIff | base/src/ThreadObject.cpp:122-132 | from any aborted state no continuation leaves a task behind the exit exactly when no producer is past its flag test and nothing was queued since Clear |
| WorkerRuns.NothingLostIff | base/src/ThreadObject.cpp:61-132 | from the moment a canceller sets the flag, every accepted task is started or thrown away by the exit, in every continuation, exactly when no producer is then past its flag test |
| WorkerRuns.StrandedTask | base/src/MsgDeque.h:219-232 | a concrete run from the start: the canceller posts, the worker exits, and a push that tested the flag early commits behind Clear |
| WorkerRuns.StatusStaysIff | base/src/ThreadObject.cpp:68-73 | the exited status is never written over, in any continuation, exactly when no producer is about to count a task or to have one taken |
| Scheduling.RoundRobin | base/src/ThreadPool.cpp:16-27 | choice t is thread t modulo N; any N consecutive choices are all threads, once each |
| Scheduling.FcfsRun | base/src/ThreadPool.cpp:16-32 | over any number of choices the rotation keeps its members and tokens and every choice is a thread of the pool |
| Scheduling.HrpIsOptimal | base/src/ThreadPool.cpp:35-106 | peak queue length = peak total / N rounded up, in every run |
| Scheduling.PeaksBound | base/src/ThreadPool.cpp:35-106 | no moment of the run was above the two peaks |
| Scheduling.PeaksReached | base/src/ThreadPool.cpp:35-106 | and each of them was reached |
| Scheduling.HrpWithoutCompletions | base/src/ThreadPool.cpp:35-66 | assignment m goes to key m modulo N; loads are the floor or ceiling of m / N |
| ThreadPool.ThreadObject.AddThreadTask | base/src/ThreadObject.cpp:61-77 | pushed and counted exactly when there is a function and room; the answer is always false |
| ThreadPool.ThreadObject.TakeTask | base/src/ThreadObject.cpp:91-96 | the oldest task, counted down; with none queued the wait does not end |
| ThreadPool.ThreadPool.GetAllValues | base/src/TMap.h:74-93 | the thread objects in ascending key order |
| ThreadPool.ThreadPool.SchedulingHRP | base/src/ThreadPool.cpp:35-66 | the thread with the least (busy count, id), by early exit or full scan; -1 for an empty pool |
| ThreadPool.ThreadPool.BestIsLeastLoaded | base/src/ThreadPool.cpp:41-62 | that thread is the least loaded one of the run theorems |
| ThreadPool.ThreadPool.SchedulingFCFS | base/src/ThreadPool.cpp:16-32 | the head of the rotation if there is one with a token and the pool knows it, else 0; what is left in every case: known heads go to the tail, unknown ones are dropped, a token is spent |
| ThreadPool.ThreadPool.GetBestThread | base/src/ThreadPool.cpp:148-171 | FCFS answers the head it can serve, and with an empty, tokenless or unknown-headed rotation the least busy thread or -1; HRP; -1 otherwise |
| ThreadPool.ThreadPool.AddTask | base/src/ThreadPool.cpp:94-106 | the named thread's queue and count change, no other; true exactly when the thread is known |
| ThreadPool.ThreadPool.RemoveThreadObject | base/src/ThreadPool.cpp:113-133 | the thread leaves the map, the rotation becomes empty and keeps its tokens |
| ThreadPool.RefilledWithTokens | base/src/ThreadPool.cpp:123-132 | the copying loop, had it the tokens, would keep every other id in order |
| ThreadPool.NoChoiceAfterRemoval | base/src/ThreadPool.cpp:16-32 | on an empty rotation no later FCFS choice answers a thread |
| ThreadPool.ThreadPool.DispatchHRP | base/src/ThreadPool.cpp:35-106 | a choice followed by AddTask is one Assign event of the run theorems |
| ThreadPool.ThreadPool.TakeFrom | base/src/ThreadObject.cpp:91-96 | a worker of the pool taking a task is one Take event of the run theorems |
| ThreadPool.ThreadPool.CreateThreadPool | base/src/ThreadPool.cpp:79-92 | every thread enters the map, the first 50000 enter the rotation, which stays duplicate-free |
| ByteOrder.HtonlTwice | base/src/IOBufferPtr.cpp:23-41 | swapping twice gives the word back |
| ByteOrder.Int32IsBigEndian | base/src/IOBufferPtr.cpp:32-46 | an int32 is stored most significant byte first |
| ByteOrder.RoundTripValue | base/src/IOBufferPtr.cpp:15-46 | what a value of any width reads back as, and exactly which values come back unchanged |
| ByteOrder.ReadOfAnyBytes | base/src/IOBufferPtr.cpp:15-30 | what any bytes, written or not, read as: int32 the signed big-endian number, int64 the unsigned number of the first four bytes, int16 and int8 the sign of their last byte |
| ByteOrder.ImageOfAnyValue | base/src/IOBufferPtr.cpp:32-46 | what any value is stored as: the low 32 bits big-endian, with four zero bytes for an int64, and only the sign for int16 and int8 |
| IOBuffer.RoomGuardIff | base/src/IOBufferPtr.cpp:37 | the unsigned write guard means "there is room" exactly when the write cursor is inside the vector |
| IOBuffer.DataGuardIff | base/src/IOBufferPtr.cpp:20-21 | the unsigned read guard means "there is data" exactly when the cursors are in order |
| IOBuffer.IOBuffer.constructor | base/src/IOBufferPtr.cpp:48-57 | an empty buffer with all its room, of any size; the cursors reach all of it exactly up to INT_MAX |
| IOBuffer.IOBuffer.WriteInt | base/src/IOBufferPtr.cpp:32-46 | appends the value's bytes, or answers -1 and changes nothing |
| IOBuffer.IOBuffer.ReadInt | base/src/IOBufferPtr.cpp:15-30 | consumes the value's bytes, or answers -1 and changes nothing |
| IOBuffer.IOBuffer.WriteText | base/src/IOBufferPtr.cpp:232-243 | appends the string, or answers 0 and changes nothing |
| IOBuffer.IOBuffer.ReadText | base/src/IOBufferPtr.cpp:151-163 | consumes len bytes; refused exactly when they are not there; throws exactly for a negative length or an empty read at the end of the vector |
| IOBuffer.IOBuffer.Skip | base/src/IOBufferPtr.h:59-68 | the write cursor takes in bytes stored behind it, as far as there is room |
| IOBuffer.IOBuffer.Resize | base/src/IOBufferPtr.cpp:64-69 | keeps the bytes, fills with zero, and keeps the cursors valid exactly when it does not cut below the write cursor |
| IOBuffer.IOBuffer.Clear | base/src/IOBufferPtr.cpp:245-252 | no bytes, no room |
| IOBuffer.IOBuffer.Swap | base/src/IOBufferPtr.h:39-46 | the two buffers trade vector and cursors |
| ByteStream.MixedStreamRoundTrip | base/src/IOBufferPtr.cpp:112-243 | for every script: reads return the read-backs of the writes in order, the buffer holds the encodings not read yet, values are unchanged exactly when all are faithful |
| ByteStream.ReadsAreAnswered | base/src/IOBufferPtr.cpp:15-30 | a read that a pending write entitles to always succeeds |
| ByteStream.WriteTakenIff | base/src/IOBufferPtr.cpp:32-46 | in every script a write is taken exactly when it and everything written before fit the vector, and otherwise changes nothing |
| ByteStream.Perform | base/src/IOBufferPtr.cpp:112-243 | the object refines the stream, act by act: a read hands out the value the stream records, a write answers whether it was taken |
| ByteStream.PerformAll | base/src/IOBufferPtr.cpp:112-243 | a whole script on a new object: the values its reads hand out are those of the stream |
| RecvLoop.AllFitIff | net/src/TcpService.cpp:280-292 | every chunk lands inside the buffer exactly when everything from the first short read on fits one megabyte |
| RecvLoop.TwoShortReads | net/src/TcpService.cpp:280-292 | an input that leaves the buffer: two reads of 600000 bytes |
| RecvLoop.Receive | net/src/TcpService.cpp:280-317 | contents = all chunks in order, allReadLen their length, across all regrowths; overrun exactly when a chunk does not fit; which of the three endings follows |
| RecvTasks.LiveClientIff | net/src/TcpService.cpp:179-189 | over a whole run of bytes, edges, tasks and reads, the server can at no moment drop a client that has not closed exactly when bytes never come while a task of the socket is queued or running |
| RecvTasks.SafeIff | net/src/TcpService.cpp:280-303 | from any state: with the peer silent a live client is safe exactly when at most one task has no bytes yet and the pending bytes are its own |
| RecvTasks.KeptIff | net/src/TcpService.cpp:294-317 | with the peer silent an open socket may be left open with no edge and no task exactly when the tasks without bytes are no more than the reads that drain it |
| RecvTasks.CloseAtRestIsDropped | net/src/TcpService.cpp:294-303 | a client that closes while its socket is at rest and drained is surely dropped |
| RecvTasks.SendAndCloseIsKept | net/src/TcpService.cpp:294-317 | a client that sends and closes within one edge is never dropped, however the server goes on |
| InetAddr.PrintedFits | net/src/InetAddr.h:32-37 | text and terminator fit the ip length + 10 |
| InetAddr.KeyInjective | net/src/InetAddr.h:30-40 | two keys are equal exactly when address and port are, the trailing NULs included |
| InetAddr.KeyReads | net/src/InetAddr.h:30-40 | the key read from the front: the four address bytes in memory order, dots and a colon, and the port hi, lo as 256 * hi + lo |
| InetAddr.DecimalValue | net/src/InetAddr.h:37 | a printed number reads back as itself |
| RegistrySpec.InverseIff | net/src/TcpService.cpp:156-168 | the maps are inverses on the open clients at every moment of a run exactly when no client arrives whose peer is connected already |
| RegistrySpec.CountLaw | base/src/EpollWatch.cpp:70-79 | in every run the count is what epoll watches, between 2 and clients + 2, and clients + 2 exactly when epoll took every client |
| RegistrySpec.DisconnectEffect | net/src/TcpService.cpp:298-301 | in every state of every run: the dropped descriptor is watched, open and named no more, its text leads nowhere, the count falls exactly if it was watched, all others stay; a descriptor not open changes nothing |
| RegistrySpec.AcceptEffect | net/src/TcpService.cpp:156-168 | in every state of every run: the new descriptor is filed under its peer's text and the text leads to it, watched and counted exactly if epoll took it, all others stay |
| RegistrySpec.PeerKeyAgreement | net/src/TcpService.cpp:264-279 | both ways of naming the peer give the same key, which finds that socket's connection when no peer is shared; a closed socket's disconnect changes nothing |
| RegistryRace.SettlesIff | net/src/TcpService.cpp:298-301 | with drops step by step by any number of tasks: after every move of a run, however the drops in progress finish, the maps and the count agree and the newest client is served, exactly when no arrival has the descriptor or text of a drop in progress or the peer of an open client |
| RegistryRace.AgreedAtRest | net/src/TcpService.cpp:294-312 | in every run without such an arrival the maps are inverses and the count is right whenever no drop is in progress |
| RegistryRace.DropIsDisconnect | net/src/TcpService.cpp:264-312 | a drop nobody comes in between, begun and made in its four steps, is the single disconnect, for both ways of naming the peer |
| RegistryRace.KeyFollowsSocket | net/src/TcpService.cpp:264-270 | a task to which getpeername answers works with the text of the peer the socket has now |
| RegistryRace.ReuseCollides | net/src/TcpService.cpp:299-300 | such an arrival can happen: the descriptor comes back between close and remove |
| RegistryRace.SecondTaskCollides | net/src/TcpService.cpp:264-299 | and again: a second task of the same socket closes the descriptor after a new client got it |
| TcpService.TcpService.constructor | net/src/TcpService.cpp:218-227 | the service starts with its two descriptors registered |
| TcpService.TcpService.Accept | net/src/TcpService.cpp:156-168 | the accept branch is the AcceptStep of the run theorems, whether or not epoll took the client and whether or not the peer is new |
| TcpService.TcpService.Disconnect | net/src/TcpService.cpp:264-312 | the disconnect path is the DisconnectStep of the run theorems; -2 exactly for a failed read on a known socket, else -1 |
| EventSizing.Converges | base/src/EpollWatch.h:38-66 | with a fixed count the size walks into the band around it and stays |
| EventSizing.AcceptBoundIff | net/src/TcpService.cpp:134-168 | every wait of every run fits the array exactly when at most 1000 sockets come a pass |
| EpollWatch.EpollWatch.constructor | base/src/EpollWatch.cpp:19-28 | one block of events, nothing registered |
| EpollWatch.EpollWatch.SafeChangeEvents | base/src/EpollWatch.h:38-66 | one sizing step; the events that stay keep their place |
| EpollWatch.EpollWatch.EpollCtl | base/src/EpollWatch.cpp:55-83 | the count follows what the kernel did, refusals of every kind included, and equals the number of watched descriptors |
| Timeout.TimeofNowTime | base/src/Timeout.cpp:73-86 | clock + milliseconds to the nanosecond, in normal form |

## Left out

- QueueProtocol.LedgerLaw: Swap is not one of its operations, because it exchanges elements and leaves the semaphore counts behind (base/src/MsgDeque.h:102-107); MsgDeque.Swap and ThreadPool.RemoveThreadObject model it for one thread.
- ThreadPool.ThreadPool.RemoveThreadObject: pthread_cancel of the removed worker is not modelled.
- MsgDeque.MsgDeque.Insert: the position is an index, brought down to the size when the section runs; the original takes an iterator made outside the mutex, which other operations may invalidate, and a reversed range is not modelled.
- MsgDeque.MsgDeque.Clear: the original empties the deque outside the mutex; here that is one step.
- WorkerProtocol.BusyLaw: an increment or decrement together with the locked write of the same value is one step; updates lost between the two are not modelled.
- WorkerProtocol.BoundedShutdown: a running task is one turn, so it is taken to return; pthread_cancel is not modelled.
- RecvLoop.Receive: what happens past the end of the vector; the model reports the overrun and stops.
- IOBuffer.IOBuffer.WriteInt: and the other methods take a buffer of at most INT_MAX bytes, which the int cursors can address.
- RegistrySpec.InverseIff: accepting and dropping a client are single steps there; RegistryRace.SettlesIff is about the steps.
- RegistryRace.SettlesIff: that a drop takes its own client away is not counted against it, whether the client had closed or not; RecvTasks.LiveClientIff is about that.
- TcpService.TcpService.Disconnect: epoll_ctl does delete a descriptor it watches.
- RecvTasks.LiveClientIff: one socket, up to its close; read errors other than "nothing now" are left to RecvLoop.Receive.
- QueueSolo.SoloCall: a deadline passes only while there is no token, as sem_timedwait promises; the run theorems allow it at any time.
- ResetInit on an aborted queue: it calls SafeClose, which locks the same mutex again, so that call does not return; SafeClose itself tests the two init flags the wrong way round and destroys nothing.
- WaitforNotFull as a capacity wait: nothing ever waits on the not-full semaphore, so its count is only posted.
- skipAll, which moves the write cursor past bytes nobody stored.
- CTimeout's elapse and timeleft, whose start flag is not set by Init, and the length of the timed waits.
- The registry after shutdown, where only one of the two maps is cleared.
- CTcpConnection's chunked write, the write branch of the event loop, logging, character conversion, time formatting, sockets and DNS.
- CTMap beyond find, set, remove and the ordered listing of values.
