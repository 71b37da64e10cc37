# Verification of core algorithms of SRS

A Dafny model of five parts of the SRS streaming server, with proofs of what they promise.

1. **State Threads** (`sched.c`, `sync.c`, `event.c`). A cooperative scheduler as a transition
   system. A state holds the thread records, the run, io and zombie queues, the timeout heap, the
   wait queues of condition variables and mutexes, and the epoll reference counts. A step is the
   code of a library call up to its context switch, the code a thread runs after it was switched
   in, or a round of the idle thread; a run is any sequence of enabled steps. A woken thread stays
   linked on its wait queue or io queue until it resumes, so queue membership is stated in terms of
   the place where a thread will resume and not of its state.
   - `Sched.dfy`: the steps as functions on a state. `SchedInv.dfy`: the invariant and its
     preservation by every step. `SchedRuns.dfy`: runs. `SchedClock.dfy`, `SchedMutex.dfy`,
     `SchedCond.dfy`, `SchedSignals.dfy`, `SchedDispatch.dfy`, `SchedTimeout.dfy`, `SchedPoll.dfy`:
     what the parts promise, over steps and runs. `SchedCalls.dfy`: what each call promises its caller.
   - `Vp.dfy`: the same calls as methods that update the queues, the records, the linked timeout
     heap and the event system in place. Each requires the invariant, keeps it, takes the step of
     the transition system and states its promise; the assertions of the source are proved.
   - `Epoll.dfy`: reference counts, interest set and dispatch, as functions and as an object.
   - `TimeoutHeapSpec.dfy`, `TimeoutHeap.dfy`: the timeout heap on a sequence of nodes, and the
     pointer-linked tree addressed by the bits of `heap_index`, which refines it.
     `TimeoutQueue.dfy`: that tree as the heap of the scheduler.
2. **JSON** (`srs_protocol_json.cpp`): the two-pass parser, the printer and the iterative free.
   `JsonScan.dfy` (tokens), `JsonStrings.dfy` and `JsonNumbers.dfy` (which texts are tokens),
   `JsonParse.dfy` (flags and containers), `JsonGrammar.dfy` (which texts are accepted, by recursive
   descent), `JsonBuild.dfy` (nodes counted and filled), `JsonParser.dfy` (the loops), `JsonText.dfy`, `JsonRoundTrip.dfy` and
   `JsonExact.dfy` (printing, reading back, and exactly when), `JsonFree.dfy`.
3. **AMF0** (`srs_protocol_amf0.cpp`, `srs_kernel_buffer.cpp`): encoder, decoder and size function
   of the Adobe AMF 0 specification, sections 1.3.1 and 2.2 to 2.13. `ByteBuffer.dfy`, `Amf0.dfy`
   (values and bytes), `Amf0Wire.dfy` (the layout of the bytes), `Amf0Keys.dfy` (repeated keys),
   `Amf0Stream.dfy` (the loops).
4. **AAC section data** (`aaccoder_trellis.h`, `aacdec_template.c`; ISO/IEC 14496-3, table 4.46):
   the codebook trellis, the section writer and the decoder. `AacSections.dfy` (section data and
   decoder), `AacAcceptance.dfy` (which bits are section data), `AacTrellis.dfy` (the table and going back through it), `AacCodewords.dfy` (the bits of
   coefficients under the codebooks of tables 4.A.2 to 4.A.12), `AacBandSizes.dfy` (the bands of every
   sampling rate), `AacQuantiser.dfy` (the bands that quantised coefficients give),
   `AacTrellisCost.dfy`, `AacTrellisEnds.dfy` and `AacTrellisOptimal.dfy` (when the cost is exact,
   when going back ends, when the path is the cheapest), `AacTrellisCoder.dfy` (the loops).
5. **I/O resumption** (`io.c`): partial transfers of `st_writev` and the `_resid` functions.
   `IoVectors.dfy`.

`Wrappers.dfy` holds what several modules share, `KeyedLists.dfy` lists in which setting an entry
moves its key to the end. `dafny verify dfyconfig.toml` checks the project.

## Where the code does less than it seems

- AMF0: `discovery` looks for the three bytes of an object end before it looks at the marker, so a
  Number whose top 16 bits are 0x0009 is read as an object end (`Amf0.NumberLikeEofIsLost`).
  `Amf0.SurvivesIffFaithful` gives the exact set of values that survive.
- AAC: `run_value_bits` holds 6 for a run of 14 bands in short windows, while writing it takes 9
  bits. The search takes a run of exactly two escapes to cost a field less than is written
  (`AacTrellisCost.CostIsExactIff`), which happens for some bands iff there are at least two escapes
  of them (`AacTrellisCost.ExactIffFewBands`): for the 14 or 15 bands of short windows at sampling
  rates up to 48 kHz (aacenctab.c:32-46). For 14 of them all bands are zero, for 15 all but the first;
  zero bands at the end are searched when another group or channel needs more bands
  (aacenc.c:263-272 and 293-294). Long windows have at most 51 bands, fewer than 62, so there the
  cost is always exact.
- AAC: the search is called optimal, but its state holds one run per codebook, so it does not see the
  field that the next escape will cost. At every sampling rate it finds a cheapest path for all
  quantised coefficients iff there are fewer bands than an escape, 7 in short windows and 31 in long
  ones (`AacTrellisOptimal.OptimalIffFewBands`). The bands that are missed hold magnitudes of at most
  13: 5 or 29 bands of pairs (8, 1) and (8, 2), with codebook 9, and two bands of pairs (13, 0), with
  codebook 11.
- JSON: of two surrogates bit 16 of the code point is set instead of added, so exactly the pairs whose
  first surrogate has bit 6 at zero are read as their code point; `\uD840\uDC00` gives U+10000 and
  not U+20000 (`JsonStrings.PairIsReadIff`).
- JSON: the parser accepts more than RFC 8259: a comma behind the last element or member, a number
  without digits before its exponent, and a minus sign alone, which is 0 (`JsonGrammar.PassIsDescent`,
  `JsonNumbers.ScannedIsSpelt`, `JsonNumbers.BareMinusIsZero`).
- JSON: keys are printed raw, so exactly the values whose keys are free of quote, backslash and NUL
  survive `dumps` and `loads` (`JsonExact.ReadBackIff`).

## Model

| member | source | states |
|---|---|---|
| TimeoutHeapSpec.InsertContents | trunk/3rdparty/st-srs/sched.c:375-408 | inserting adds exactly the given thread to the heap |
| TimeoutHeapSpec.InsertOrder | trunk/3rdparty/st-srs/sched.c:375-408 | inserting keeps every parent due no later than its children |
| TimeoutHeapSpec.DeleteContents | trunk/3rdparty/st-srs/sched.c:414-484 | deleting takes exactly the given thread out of the heap |
| TimeoutHeapSpec.DeleteOrder | trunk/3rdparty/st-srs/sched.c:414-484 | the order holds again after a deletion, whether the displaced last node rises along the root path or sinks below the hole |
| TimeoutHeapSpec.RootIsEarliest | trunk/3rdparty/st-srs/sched.c:536-541 | the root is due no later than any thread in the heap |
| TimeoutHeap.BitIsSide | trunk/3rdparty/st-srs/sched.c:387-402 | the bits of a node number below its leading one spell the path from the root: a set bit means a right child |
| TimeoutHeap.CountBits | trunk/3rdparty/st-srs/sched.c:383-386 | the loop over the bits computes the depth of the node |
| TimeoutHeap.SleepQueue.Descend | trunk/3rdparty/st-srs/sched.c:387-407 | the walk of `heap_insert` along left/right pointers, with its exchanges of threads, does what the walk on the sequence of nodes does |
| TimeoutHeap.SleepQueue.Add | trunk/3rdparty/st-srs/sched.c:487-493 | `_st_add_sleep_q` through `left`, `right` and `heap_index`: the tree stays complete and correctly numbered, and its nodes are those of the sequence after an insertion |
| TimeoutHeap.SleepQueue.FindSlot | trunk/3rdparty/st-srs/sched.c:419-432 | the bits of the size lead to the pointer to the last node |
| TimeoutHeap.SleepQueue.Sink | trunk/3rdparty/st-srs/sched.c:460-477 | one exchange of a node with its younger child through the pointers of both keeps the tree wired and swaps exactly these two |
| TimeoutHeap.SleepQueue.SinkAll | trunk/3rdparty/st-srs/sched.c:446-481 | the loop below the hole ends and does what sinking on the sequence does |
| TimeoutHeap.SleepQueue.Delete | trunk/3rdparty/st-srs/sched.c:414-484 | `heap_delete`: the tree stays complete and correctly numbered, and exactly the given thread is gone |
| Epoll.DelAllCounts | trunk/3rdparty/st-srs/event.c:1110-1147 | removing a poll set takes its entries off the counts, also when a descriptor occurs in it several times |
| Epoll.PollsetAddCounts | trunk/3rdparty/st-srs/event.c:1149-1203 | adding a poll set adds its entries to the counts; a failed addition leaves every count as it was |
| Epoll.PollsetAddConsistent | trunk/3rdparty/st-srs/event.c:1149-1203 | the kernel interest set stays equal to the non-zero counts and `evtlist_cnt` to its size, also after a failure midway; the call fails with Invalid iff some entry is not acceptable, and otherwise only if the kernel refuses some descriptor |
| Epoll.FailureIsRefusal | trunk/3rdparty/st-srs/event.c:1173-1190 | the second loop stops only at a descriptor that the kernel refuses to register |
| Epoll.DelAllConsistent | trunk/3rdparty/st-srs/event.c:1110-1147 | deregistration keeps interest set and counts in agreement, but leaves descriptors that have fired to the end of dispatch |
| Epoll.MarkEffect | trunk/3rdparty/st-srs/event.c:1271-1279 | the first loop of dispatch stores what fired, with the awaited bits on an error, and touches no count |
| Epoll.FinishConsistent | trunk/3rdparty/st-srs/event.c:1326-1337 | after the last loop of dispatch no events are left and interest set and counts agree again |
| Epoll.EventSystem.PollsetDel | trunk/3rdparty/st-srs/event.c:1110-1147 | the loop over the poll descriptors updates counters, interest set and `evtlist_cnt` as specified |
| Epoll.EventSystem.PollsetAdd | trunk/3rdparty/st-srs/event.c:1149-1203 | both loops and the roll-back through `_st_epoll_pollset_del` |
| Epoll.EventSystem.StoreEvents | trunk/3rdparty/st-srs/event.c:1271-1279 | the first loop of dispatch |
| Epoll.EventSystem.SettleFired | trunk/3rdparty/st-srs/event.c:1326-1337 | the last loop of dispatch |
| SchedInv.ExpireKeeps | trunk/3rdparty/st-srs/sched.c:536-555 | the clock check keeps the scheduler invariant, however many threads expire |
| SchedInv.CheckClockKeeps | trunk/3rdparty/st-srs/sched.c:503-556 | the clock check keeps the scheduler invariant |
| SchedInv.ScheduleKeeps | trunk/3rdparty/st-srs/sched.c:134-160 | after a context switch exactly one thread runs, and the idle thread runs only when the run queue is empty |
| SchedInv.PollKeeps | trunk/3rdparty/st-srs/sched.c:83-113 | `st_poll` up to its context switch, in all its outcomes, keeps the invariant: queues, flags and reference counts |
| SchedInv.PollReturnKeeps | trunk/3rdparty/st-srs/sched.c:115-131 | a poll that timed out or was interrupted unlinks its pollq and takes its entries off the counts; the invariant is kept |
| SchedInv.USleepKeeps | trunk/3rdparty/st-srs/sync.c:115-140 | `st_usleep` keeps the invariant |
| SchedInv.WaitKeeps | trunk/3rdparty/st-srs/sync.c:179-197 | `st_cond_timedwait` up to its context switch keeps the invariant, called by the program or by `st_thread_join` |
| SchedInv.AfterWaitKeeps | trunk/3rdparty/st-srs/sync.c:199-214 | the end of `st_cond_timedwait` keeps the invariant |
| SchedInv.SignalKeeps | trunk/3rdparty/st-srs/sync.c:223-243 | signal and broadcast keep the invariant |
| SchedInv.LockKeeps | trunk/3rdparty/st-srs/sync.c:289-315 | `st_mutex_lock` up to its context switch keeps the invariant |
| SchedInv.LockReturnKeeps | trunk/3rdparty/st-srs/sync.c:317-325 | the end of `st_mutex_lock` keeps the invariant |
| SchedInv.UnlockKeeps | trunk/3rdparty/st-srs/sync.c:328-353 | `st_mutex_unlock` keeps the invariant: the lock is freed only if nobody is in LOCK_WAIT on it |
| SchedInv.TryLockKeeps | trunk/3rdparty/st-srs/sync.c:356-367 | `st_mutex_trylock` keeps the invariant |
| SchedInv.YieldKeeps | trunk/3rdparty/st-srs/sched.c:559-585 | `st_thread_yield` keeps the invariant |
| SchedInv.InterruptKeeps | trunk/3rdparty/st-srs/sched.c:588-605 | `st_thread_interrupt` keeps the invariant, whatever its target waits for |
| SchedInv.CreateKeeps | trunk/3rdparty/st-srs/sched.c:617-725 | `st_thread_create` keeps the invariant |
| SchedInv.ExitKeeps | trunk/3rdparty/st-srs/sched.c:268-308 | `st_thread_exit` keeps the invariant; a joiner that waits is woken and finds a zombie |
| SchedInv.ExitReturnKeeps | trunk/3rdparty/st-srs/sched.c:285-308 | a zombie that is switched in for the last time leaves no trace on any queue |
| SchedInv.JoinKeeps | trunk/3rdparty/st-srs/sched.c:311-348 | `st_thread_join` keeps the invariant |
| SchedInv.JoinerFindsZombie | trunk/3rdparty/st-srs/sched.c:330-347 | a joiner that was woken without an interrupt finds its target a zombie and is the only one on its termination queue: its loop never waits twice |
| SchedInv.IoqWaitsWhenIdle | trunk/3rdparty/st-srs/sched.c:245-262 | whenever the idle thread runs, every thread on the io queue is in IO_WAIT, although timed-out and interrupted threads leave their pollq linked until they resume |
| SchedInv.LeaveIoq | trunk/3rdparty/st-srs/event.c:1310-1316 | unlinking a pollq takes exactly its entries off the reference counts |
| SchedInv.DispatchAllKeeps | trunk/3rdparty/st-srs/event.c:1281-1324 | the loop of dispatch over the io queue keeps the invariant and the counts, and wakes each thread at most once |
| SchedInv.DispatchKeeps | trunk/3rdparty/st-srs/event.c:1205-1339 | a whole dispatch keeps the invariant |
| SchedInv.IdleRoundKeeps | trunk/3rdparty/st-srs/sched.c:245-265 | a round of the idle thread keeps the invariant |
| SchedInv.ResumedKeeps | trunk/3rdparty/st-srs/sched.c:115-131 | whatever a thread does between its context switch and the return of its call keeps the invariant |
| SchedRuns.InitKeeps | trunk/3rdparty/st-srs/sched.c:165-222 | the invariant holds after `st_init` |
| SchedRuns.StepKeeps | trunk/3rdparty/st-srs/sched.c:83-348 | every step a program, the idle thread or a resumed thread may take keeps the invariant |
| SchedRuns.RunKeeps | trunk/3rdparty/st-srs/sched.c:83-605 | the invariant holds in every state of every run |
| SchedRuns.ReachableQueues | trunk/3rdparty/st-srs/sched.c:83-605 | in every reachable state exactly one thread is RUNNING; a thread is RUNNABLE iff it is on the run queue, once; ZOMBIE iff on the zombie queue, once; ON_SLEEPQ iff in the timeout heap, once and with its due time, and then it waits for I/O, a condition or time; the idle thread is on no queue |
| SchedRuns.IdleRunsAlone | trunk/3rdparty/st-srs/sched.c:134-160 | over every run: whenever the idle thread runs, the run queue is empty and every other live thread waits or is a zombie |
| SchedClock.ExpiredIsExact | trunk/3rdparty/st-srs/sched.c:536-555 | exactly the due entries leave the heap; those left are due later; the ones taken later are due no earlier |
| SchedClock.CheckClockExact | trunk/3rdparty/st-srs/sched.c:503-556 | the threads due at or before now leave the heap and come before the old run queue in non-increasing due order; TIMEDOUT is set exactly on those that were in COND_WAIT; no other thread changes |
| SchedClock.ClockFindsDue | trunk/3rdparty/st-srs/sched.c:503-556 | the clock check puts exactly the threads that are due before the run queue, each once, the latest due first, and does nothing else when nobody is due |
| SchedMutex.LockReturn | trunk/3rdparty/st-srs/sync.c:312-325 | after waiting, 0 means that the caller owns the mutex and EINTR that it does not; a caller without interrupt always owns it |
| SchedMutex.WaitedForMutexIsHeld | trunk/3rdparty/st-srs/sync.c:328-353 | a mutex is never free while some thread is in LOCK_WAIT on it |
| SchedMutex.StepFifoUnlock | trunk/3rdparty/st-srs/sync.c:338-352 | an unlock by the owner hands the mutex to a given waiter iff no LOCK_WAIT thread is linked before it, and otherwise to a thread that is |
| SchedMutex.StepFifo | trunk/3rdparty/st-srs/sync.c:289-367 | no step of any thread puts anybody ahead of a waiter or changes the owner, except an unlock by the owner |
| SchedMutex.WaiterOwnsInTurn | trunk/3rdparty/st-srs/sync.c:328-353 | over a whole run: a waiter that is not interrupted and has k LOCK_WAIT threads ahead of it owns the mutex by the (k+1)st unlock |
| SchedCond.SignalWakes | trunk/3rdparty/st-srs/sync.c:223-243 | a signal wakes exactly the first thread in COND_WAIT, a broadcast all of them in queue order; waiters still linked but already woken are skipped |
| SchedSignals.StepQueue | trunk/3rdparty/st-srs/sync.c:193-199 | what every step does to the queue of a condition variable: a waiter is linked at its end and unlinked by itself, and nobody else touches it |
| SchedSignals.StepWaiters | trunk/3rdparty/st-srs/sync.c:193-199 | the threads waiting behind any step are those before it that it did not wake, in the same order, and a caller that blocks behind them |
| SchedSignals.WaiterIsReached | trunk/3rdparty/st-srs/sync.c:223-255 | over any run: a thread with k threads in COND_WAIT linked before it has left its wait by the (k+1)st signal, whatever all threads do in between |
| SchedSignals.SignalsWakeExactly | trunk/3rdparty/st-srs/sync.c:223-255 | at every point of any run up to which the waiters of its start leave their wait only by signals and none of them resumes, k signals have woken exactly the first min(k, n) of these n in queue order, also while clocks are checked and others come to wait |
| SchedDispatch.NotifiedIff | trunk/3rdparty/st-srs/event.c:1281-1309 | a pollq is notified iff a fired event concerns one of its descriptors |
| SchedDispatch.InterestIsAsked | trunk/3rdparty/st-srs/event.c:1110-1203 | in every state with the invariant the kernel is asked about exactly the descriptors and events that some waiting poll asks for |
| SchedDispatch.FiredAnswers | trunk/3rdparty/st-srs/event.c:1271-1309 | the revents of an entry: read, write or priority iff it asks for that and its descriptor fired with it, an error or a hangup; error and hangup as they fired |
| SchedDispatch.ReadyCountIsConcerned | trunk/3rdparty/st-srs/sched.c:120-125 | a poll counts exactly the entries that a fired event concerns |
| SchedDispatch.DispatchAnswers | trunk/3rdparty/st-srs/event.c:1271-1324 | each entry of a pollq has its answer to the fired events, and the thread is runnable, out of the heap and off the io queue iff such an event concerns one of them |
| SchedDispatch.DispatchWakes | trunk/3rdparty/st-srs/event.c:1281-1324 | dispatch makes runnable exactly the threads on the io queue that a fired event concerns, each once and in the order of the io queue, and exactly these leave the io queue |
| SchedTimeout.StepOnWaiter | trunk/3rdparty/st-srs/sched.c:539-555 | what every step does to a condition waiter: taken out of COND_WAIT it has TIMEDOUT iff the step checks the clock; once woken, the mark stays |
| SchedTimeout.MarkIsFinal | trunk/3rdparty/st-srs/sync.c:199-214 | over a run: a thread that was woken keeps its record, its time-out mark and the answers to its poll included, until it resumes; only an interrupt may still mark it |
| SchedTimeout.TimedOutIffClockWoke | trunk/3rdparty/st-srs/sync.c:179-214 | `st_cond_timedwait` reports ETIME iff the caller was not interrupted and a clock check took it out of COND_WAIT: a signalled waiter can never time out later |
| SchedPoll.PollReportsFired | trunk/3rdparty/st-srs/sched.c:83-131 | over a run: when a poll that a fired event concerns runs again, whatever has happened since, its entries have their answers to the events of that dispatch and it returns the number of entries concerned, unless it was interrupted |
| TimeoutQueue.Timeouts.NodePosition | trunk/3rdparty/st-srs/sched.c:496-500 | a thread is in the heap at its own `heap_index`, and its position among the thread numbers is the same |
| TimeoutQueue.Timeouts.Insert | trunk/3rdparty/st-srs/sched.c:487-493 | inserting a thread into the pointer-linked heap is inserting its number into the heap of the scheduler |
| TimeoutQueue.Timeouts.Remove | trunk/3rdparty/st-srs/sched.c:414-500 | deleting a thread from the pointer-linked heap deletes its number from the heap of the scheduler |
| TimeoutQueue.Timeouts.First | trunk/3rdparty/st-srs/sched.c:536-541 | the root pointer leads to the first entry of the heap |
| VirtualProcessor.Vp.Start | trunk/3rdparty/st-srs/sched.c:165-222 | `st_init` sets up a state that satisfies the invariant, in which the primordial thread runs |
| VirtualProcessor.Vp.CheckTheClock | trunk/3rdparty/st-srs/sched.c:503-556 | the loop over the root of the linked heap ends in the state that the specification gives; both assertions of the source hold: the root is marked as sleeping, and the idle thread never sleeps |
| VirtualProcessor.Vp.SignalCode | trunk/3rdparty/st-srs/sync.c:223-243 | the loop over the wait queue, with its early exit for a signal; a sleeper is taken out of the linked heap only if it is in it |
| VirtualProcessor.Vp.UnlockCode | trunk/3rdparty/st-srs/sync.c:328-353 | the search for the first LOCK_WAIT thread and the hand-off |
| VirtualProcessor.Vp.Collect | trunk/3rdparty/st-srs/event.c:1283-1309 | the inner loop of dispatch: the revents of each descriptor, bit by bit, and whether any is set |
| VirtualProcessor.Vp.DispatchFired | trunk/3rdparty/st-srs/event.c:1271-1339 | the three loops of dispatch, with the linked heap and the event system updated in place |
| VirtualProcessor.Vp.CreateThread | trunk/3rdparty/st-srs/sched.c:617-725 | the new thread has a number that no thread has, is joinable as asked, RUNNABLE at the end of the run queue and active; all other threads are as before; the invariant is kept |
| VirtualProcessor.Vp.ExitThread | trunk/3rdparty/st-srs/sched.c:268-308 | the caller is gone, or a zombie on the zombie queue whose joiner no longer waits; the threads that run next are those of the run queue and then the joiner, and the next one is RUNNABLE as the source asserts; the invariant is kept |
| VirtualProcessor.Vp.JoinThread | trunk/3rdparty/st-srs/sched.c:311-348 | 0 iff the target is a zombie, which is then runnable and off the zombie queue; EINVAL and EDEADLK exactly when documented; a caller that blocks is the only thread on the termination queue |
| VirtualProcessor.Vp.YieldThread | trunk/3rdparty/st-srs/sched.c:559-585 | the clock has been read and nobody who is due is left asleep; without a switch nobody else was ready and nothing has changed; after one, those whose time has come run first, the latest due first, then the threads that were ready, and the caller last |
| VirtualProcessor.Vp.InterruptThread | trunk/3rdparty/st-srs/sched.c:588-605 | a target that is not a zombie is marked, ready and out of the timeout heap, and last on the run queue if it waited; nobody else is touched |
| VirtualProcessor.Vp.Sleep | trunk/3rdparty/st-srs/sync.c:115-131 | EINTR iff an interrupt was pending, which is taken; otherwise the caller waits in the heap with its due time, or suspended, and the next RUNNABLE thread runs |
| VirtualProcessor.Vp.CondWait | trunk/3rdparty/st-srs/sync.c:179-197 | EINTR iff an interrupt was pending; otherwise the caller is the last waiter of the queue and in the heap iff it has a time-out |
| VirtualProcessor.Vp.CondSignal | trunk/3rdparty/st-srs/sync.c:223-255 | exactly the first waiter, or all of them in order, are runnable and out of the heap; the invariant is kept |
| VirtualProcessor.Vp.MutexLock | trunk/3rdparty/st-srs/sync.c:289-315 | 0 iff the mutex was free and no interrupt pending, and then the caller owns it; EDEADLK iff it did already; a caller that blocks is last in the queue of a mutex that another thread owns |
| VirtualProcessor.Vp.MutexUnlock | trunk/3rdparty/st-srs/sync.c:328-353 | 0 iff the caller owns the mutex, which then belongs to the first LOCK_WAIT thread of its queue, now RUNNABLE, or to nobody if there is none |
| VirtualProcessor.Vp.MutexTryLock | trunk/3rdparty/st-srs/sync.c:356-367 | 0 iff the mutex was free, and then the caller owns it; otherwise nothing changes |
| VirtualProcessor.Vp.PollFds | trunk/3rdparty/st-srs/sched.c:83-113 | a caller that blocks is on the io queue with each of its entries counted once more; a call that fails leaves every count and the io queue as they were |
| VirtualProcessor.Vp.Idle | trunk/3rdparty/st-srs/sched.c:245-265 | the program ends iff no thread is active; otherwise no sleeper that is due is left, those whose time has come run first, the latest due first, then those whom fired events concern, in the order of the io queue, with their answers; the idle thread runs on only if nobody is ready |
| VirtualProcessor.Vp.Resume | trunk/3rdparty/st-srs/sched.c:115-131 | no call blocks again after it was switched in: the result of poll, sleep, wait, join and lock in terms of interrupt, time-out mark and ownership; an interrupt that is reported is taken, and no other thread is touched but a zombie that is joined |
| VirtualProcessor.Vp.Do | trunk/3rdparty/st-srs/sched.c:83-605 | the object takes every step of a run as the transition system does, and keeps the invariant and the linked heap |
| JsonScan.StringPassesAgree | trunk/src/protocol/srs_protocol_json.cpp:546-697 | the two passes agree on every string token: same end, and as many bytes stored as counted, for all escapes and code points |
| JsonScan.NumberPassesAgree | trunk/src/protocol/srs_protocol_json.cpp:884-1058 | the number state machine of the first pass and the skip loop of the second stop at the same character whenever that character cannot belong to a number |
| JsonStrings.Utf8IsDecoded | trunk/src/protocol/srs_protocol_json.cpp:608-643 | the bytes stored for a code point are decoded to it by a UTF-8 decoder that goes by the first byte, whatever follows them |
| JsonStrings.Utf8IsShortest | trunk/src/protocol/srs_protocol_json.cpp:608-643 | no other bytes of at most that length are decoded to the code point |
| JsonStrings.PairIsReadIff | trunk/src/protocol/srs_protocol_json.cpp:589-606 | a surrogate pair is read as its code point iff bit 6 of the first surrogate is zero; otherwise bit 16 is lost |
| JsonStrings.SpeltIsRead | trunk/src/protocol/srs_protocol_json.cpp:546-697 | every sequence of characters, escapes, code points and surrogate pairs with a closing quote behind it is a string token, stored part by part: each escape as its character, each code point as its UTF-8 bytes |
| JsonStrings.ReadIsSpelt | trunk/src/protocol/srs_protocol_json.cpp:546-697 | every string token is such a sequence, stored part by part |
| JsonNumbers.ScannedIsSpelt | trunk/src/protocol/srs_protocol_json.cpp:965-1058 | what the state machine takes for a number is one of the grammar, as far as it goes; it is an integer iff it has no fraction and no exponent, and its value is that of its digits |
| JsonNumbers.SpeltIsScanned | trunk/src/protocol/srs_protocol_json.cpp:965-1058 | every number of the grammar that does not go on is scanned whole |
| JsonNumbers.BareMinusIsZero | trunk/src/protocol/srs_protocol_json.cpp:903-917 | a minus sign alone is read as the integer 0 |
| JsonGrammar.PassIsDescent | trunk/src/protocol/srs_protocol_json.cpp:532-1115 | each pass accepts exactly the texts of a grammar by recursive descent, white space between any two tokens included, and meets exactly the values and keys that the descent finds |
| JsonGrammar.BomIsSkipped | trunk/src/protocol/srs_protocol_json.cpp:506-513 | a byte order mark in front of the text is skipped, and nothing else is |
| JsonParse.NoNumberBehindValue | trunk/src/protocol/srs_protocol_json.cpp:751-812 | no character of a number is accepted right behind a value |
| JsonParse.PassesAgree | trunk/src/protocol/srs_protocol_json.cpp:532-1115 | on every text that the first pass accepts the second pass meets the same values and keys in the same order with exactly the counted sizes, and accepts as well |
| JsonParse.RunIsProper | trunk/src/protocol/srs_protocol_json.cpp:751-1112 | the values and keys of an accepted text are one value with balanced containers and a key before each member |
| JsonBuild.CountAllGrows | trunk/src/protocol/srs_protocol_json.cpp:443-465 | nodes are only added, and later counting touches only nodes that are open |
| JsonBuild.OwedIsCounted | trunk/src/protocol/srs_protocol_json.cpp:1069-1110 | a member whose key has been read is counted in the end |
| JsonBuild.SecondPassFillsExactly | trunk/src/protocol/srs_protocol_json.cpp:388-441 | the second pass writes only to counted space, fills every string, object and array exactly and takes every node once |
| JsonBuild.ParserFillsExactly | trunk/src/protocol/srs_protocol_json.cpp:494-1117 | the whole parser, for every text the first pass accepts: exact filling, and a tree that holds what was met |
| JsonParser.Parser.ReadCodePoint | trunk/src/protocol/srs_protocol_json.cpp:574-606 | the `\u` case, with the second escape of a surrogate pair |
| JsonParser.Parser.ReadString | trunk/src/protocol/srs_protocol_json.cpp:546-697 | the iterations inside a string, in either pass |
| JsonParser.Parser.NumberStep | trunk/src/protocol/srs_protocol_json.cpp:965-1058 | one character of the number state machine, branch by branch |
| JsonParser.Parser.ScanDigits | trunk/src/protocol/srs_protocol_json.cpp:965-1058 | the iterations of the first pass inside a number |
| JsonParser.Parser.SkipDigits | trunk/src/protocol/srs_protocol_json.cpp:888-901 | the skip loop of the second pass |
| JsonParser.Parser.Step | trunk/src/protocol/srs_protocol_json.cpp:543-1112 | one iteration of the main loop, flag by flag |
| JsonParser.Parser.Pass | trunk/src/protocol/srs_protocol_json.cpp:532-1115 | one pass: its acceptance, and the nodes counted or the tree filled |
| JsonParser.Parser.Parse | trunk/src/protocol/srs_protocol_json.cpp:494-1117 | both passes of `json_parse_ex` |
| JsonText.QuotedIsRead | trunk/src/protocol/srs_protocol_json.cpp:1435-1473 | a string without NUL is read back from its quoted text |
| JsonText.QuotedIsReadIffNulFree | trunk/src/protocol/srs_protocol_json.cpp:1435-1473 | exactly the strings without NUL are read back from their quoted text; any other makes the parser fail |
| JsonText.KeyIsReadIffPlain | trunk/src/protocol/srs_protocol_json.cpp:1667-1685 | exactly the keys free of quote, backslash and NUL are read back from a key printed without escapes |
| JsonText.IntIsScanned | trunk/src/protocol/srs_protocol_json.cpp:965-1058 | a printed integer is read back by the first pass and skipped whole by the second |
| JsonText.ValueIsMet | trunk/src/protocol/srs_protocol_json.cpp:1475-1509 | each pass meets exactly the events of a printed value, in any place where a value may stand |
| JsonRoundTrip.ValueIsBuilt | trunk/src/protocol/srs_protocol_json.cpp:1083-1110 | the events of a value build that value and attach it to what encloses it |
| JsonRoundTrip.TreeIsKept | trunk/src/protocol/srs_protocol_json.cpp:1574-1622 | `srs_json_parse_tree` keeps a tree whose objects have distinct keys |
| JsonRoundTrip.TreeKeepsLatest | trunk/src/protocol/srs_protocol_json.cpp:1574-1622 | a converted object has the latest member of each key, in the order in which these come in the text |
| JsonRoundTrip.LoadsOfDumps | trunk/src/protocol/srs_protocol_json.cpp:1624-1635 | `loads(dumps(v))` is v for objects, arrays, strings without NUL, booleans, nulls and integers other than the least, with plain distinct keys |
| JsonExact.TokenPaysForBytes | trunk/src/protocol/srs_protocol_json.cpp:546-697 | the bytes read from a string token cost no more than the token: two characters for a quote or backslash, six for a NUL |
| JsonExact.ParsedIsNoLonger | trunk/src/protocol/srs_protocol_json.cpp:494-1117 | what both passes make of any text costs no more than the text, brackets, commas, colons and duplicate members included |
| JsonExact.TreeHasDistinctKeys | trunk/src/protocol/srs_protocol_json.cpp:1574-1622 | no object has two properties of one name after the conversion |
| JsonExact.ReadBackIff | trunk/src/protocol/srs_protocol_json.cpp:1624-1635 | for every value without doubles, `loads(dumps(v))` is v if and only if the keys of each object are distinct and free of quote, backslash and NUL and no string holds a NUL |
| JsonRoundTrip.SrsJsonObject.Set | trunk/src/protocol/srs_protocol_json.cpp:1700-1722 | the first old property of the name is taken out, all others keep their order, and the new one is the last |
| JsonFree.TreeNoRepeats | trunk/src/protocol/srs_protocol_json.cpp:1163-1206 | nothing is freed twice |
| JsonFree.AllIsFreed | trunk/src/protocol/srs_protocol_json.cpp:1163-1206 | every node of the tree and every buffer is freed |
| JsonFree.OnlyTreeIsFreed | trunk/src/protocol/srs_protocol_json.cpp:1163-1206 | nothing outside the tree is freed |
| JsonFree.ChildrenFirst | trunk/src/protocol/srs_protocol_json.cpp:1163-1206 | each child is freed before its parent and each buffer before its node |
| JsonFree.FreeValue | trunk/src/protocol/srs_protocol_json.cpp:1163-1206 | the loop with the shrinking lengths ends on every well-formed tree and frees exactly that, in that order |
| ByteBuffer.BytesRoundTrip | trunk/src/kernel/srs_kernel_buffer.cpp:250-257 | a number is its big-endian bytes |
| ByteBuffer.NumberRoundTrip | trunk/src/kernel/srs_kernel_buffer.cpp:250-257 | bytes are the big-endian bytes of their number |
| ByteBuffer.SrsBuffer.Read2Bytes | trunk/src/kernel/srs_kernel_buffer.cpp:108-118 | a signed big-endian 16-bit number, and the cursor behind it |
| ByteBuffer.SrsBuffer.Read3Bytes | trunk/src/kernel/srs_kernel_buffer.cpp:132-143 | an unsigned big-endian 24-bit number, and the cursor behind it |
| ByteBuffer.SrsBuffer.Read4Bytes | trunk/src/kernel/srs_kernel_buffer.cpp:158-170 | a signed big-endian 32-bit number, and the cursor behind it |
| ByteBuffer.SrsBuffer.Read8Bytes | trunk/src/kernel/srs_kernel_buffer.cpp:186-202 | a signed big-endian 64-bit number, and the cursor behind it |
| ByteBuffer.SrsBuffer.ReadString | trunk/src/kernel/srs_kernel_buffer.cpp:222-232 | the given number of bytes, and the cursor behind them |
| ByteBuffer.SrsBuffer.WriteString | trunk/src/kernel/srs_kernel_buffer.cpp:340-346 | the bytes are stored at the cursor and nothing else changes |
| Amf0.SizeIsExact | trunk/src/protocol/srs_protocol_amf0.cpp:655-670 | `total_size` is the length of the encoding, for every value |
| Amf0.RoundTrip | trunk/src/protocol/srs_protocol_amf0.cpp:1486-1502 | reading the encoding of a value that the format can carry gives it back and leaves the position exactly behind it, whatever bytes follow |
| Amf0.ReadIsFaithful | trunk/src/protocol/srs_protocol_amf0.cpp:371-433 | whatever is read before the end of the bytes has short strings, distinct keys, as many elements as counted and no number that starts like an object end |
| Amf0.SurvivesIffFaithful | trunk/src/protocol/srs_protocol_amf0.cpp:371-433 | exactly the values with these properties are read back whatever follows |
| Amf0.EncodingIsPrefixFree | trunk/src/protocol/srs_protocol_amf0.cpp:716-746 | different values have encodings of which none begins the other |
| Amf0.NumberLikeEofIsLost | trunk/src/protocol/srs_protocol_amf0.cpp:375-379 | a number whose top 16 bits are 0x0009 is read as an object end |
| Amf0Keys.SetReplaces | trunk/src/protocol/srs_protocol_amf0.cpp:481-500 | the first old property of the name is taken out, all others keep their order, and the new one is the last |
| Amf0Keys.RepeatedKeysAreRead | trunk/src/protocol/srs_protocol_amf0.cpp:684-713 | an object whose keys repeat is read with the latest property of each key, in the order in which these come |
| Amf0Keys.RepeatedKeysOfArrayAreRead | trunk/src/protocol/srs_protocol_amf0.cpp:850-899 | the same for an ecma array |
| Amf0Wire.ByteIsWorth | trunk/src/kernel/srs_kernel_buffer.cpp:310-323 | the bytes of a field come highest first |
| Amf0Wire.PlainValuesAreLaidOut | trunk/src/protocol/srs_protocol_amf0.cpp:22-33 | the bytes of booleans, null, undefined, the object end and the empty object |
| Amf0Wire.NumberIsLaidOut | trunk/src/protocol/srs_protocol_amf0.cpp:1604-1625 | marker 0 and eight bytes |
| Amf0Wire.StringIsLaidOut | trunk/src/protocol/srs_protocol_amf0.cpp:1519-1529 | marker 2, the low 16 bits of the length in two bytes, and the text |
| Amf0Wire.DateIsLaidOut | trunk/src/protocol/srs_protocol_amf0.cpp:1378-1405 | marker 11, milliseconds in eight bytes and a time zone in two, as two's complements |
| Amf0Wire.ContainersAreLaidOut | trunk/src/protocol/srs_protocol_amf0.cpp:716-746 | objects and ecma arrays end with 0, 0, 9; arrays have a count of four bytes behind their markers 8 and 10 |
| Amf0Wire.ReadIsThere | trunk/src/protocol/srs_protocol_amf0.cpp:371-433 | a value is read only from its marker and its fields; a string whose length looks negative is read as empty |
| Amf0Stream.Hashtable.Set | trunk/src/protocol/srs_protocol_amf0.cpp:481-500 | the first old property of the name is taken out, all others keep their order, and the new one is the last |
| Amf0Stream.Hashtable.GetProperty | trunk/src/protocol/srs_protocol_amf0.cpp:502-516 | the value of the first property of that name, and nothing iff there is none |
| Amf0Stream.SetThenLookup | trunk/src/protocol/srs_protocol_amf0.cpp:481-516 | a property that was set is found under its name; all others are found as before |
| Amf0Stream.IsObjectEof | trunk/src/protocol/srs_protocol_amf0.cpp:1754-1765 | the look-ahead for three bytes, which leaves the cursor where it was |
| Amf0Stream.ReadText | trunk/src/protocol/srs_protocol_amf0.cpp:1691-1728 | the text and the cursor behind it; a length above 32767 reads as the empty string |
| Amf0Stream.ReadProperties | trunk/src/protocol/srs_protocol_amf0.cpp:684-713 | the loop of object and ecma array, which also ends at the end of the bytes |
| Amf0Stream.ReadElements | trunk/src/protocol/srs_protocol_amf0.cpp:1055-1065 | the loop of the strict array ends even when a huge count is claimed |
| Amf0Stream.ReadAny | trunk/src/protocol/srs_protocol_amf0.cpp:1486-1502 | the reader ends on every byte string, and returns the value and cursor that the specification gives |
| Amf0Stream.WriteText | trunk/src/protocol/srs_protocol_amf0.cpp:1730-1752 | the length and bytes of a text, with the two checks for room |
| Amf0Stream.WriteProperties | trunk/src/protocol/srs_protocol_amf0.cpp:728-739 | the loop over the properties writes their encodings or stops where room ends |
| Amf0Stream.WriteElements | trunk/src/protocol/srs_protocol_amf0.cpp:1088-1094 | the loop over the elements writes their encodings or stops where room ends |
| Amf0Stream.WriteAny | trunk/src/protocol/srs_protocol_amf0.cpp:716-746 | writing succeeds iff `total_size` bytes are left, and then advances by exactly that; on a failure only a front part of the encoding has been stored |
| Amf0Stream.WrittenIsRead | trunk/src/protocol/srs_protocol_amf0.cpp:716-746 | what was written is read back from the buffer up to its last byte |
| AacSections.RunRoundTrip | trunk/3rdparty/ffmpeg-4-fit/libavcodec/aacdec_template.c:1448-1462 | a run length is read back, also when it is a multiple of the escape value, for 3 and 5 bits |
| AacSections.GroupRoundTrip | trunk/3rdparty/ffmpeg-4-fit/libavcodec/aacdec_template.c:1436-1467 | the sections of a group give back codebook and run end of every band |
| AacSections.SectionDataRoundTrip | trunk/3rdparty/ffmpeg-4-fit/libavcodec/aacdec_template.c:1430-1469 | reading back the section data of any partition of every group gives every band its codebook and run end |
| AacSections.BandOfSection | trunk/3rdparty/ffmpeg-4-fit/libavcodec/aacdec_template.c:1463-1466 | every band gets the codebook of the section it lies in and the end of that section |
| AacSections.ReadRunEnd | trunk/3rdparty/ffmpeg-4-fit/libavcodec/aacdec_template.c:1447-1462 | the inner loop ends on every bit string and rejects over-reading and overlong sections |
| AacSections.DecodeSection | trunk/3rdparty/ffmpeg-4-fit/libavcodec/aacdec_template.c:1438-1466 | one section is read and its bands stored |
| AacSections.DecodeBandTypes | trunk/3rdparty/ffmpeg-4-fit/libavcodec/aacdec_template.c:1430-1469 | the decoder ends on every bit string, also with sections of length zero, and on success has stored exactly the bands described |
| AacAcceptance.BitIsWorth | trunk/3rdparty/ffmpeg-4-fit/libavcodec/aacdec_template.c:1440-1448 | the bits of a field come highest first |
| AacAcceptance.GroupIsReadIff | trunk/3rdparty/ffmpeg-4-fit/libavcodec/aacdec_template.c:1436-1467 | a window group is accepted iff its bits spell sections of codebooks other than 12 with as many bands as the group has, and gives the bands of these sections |
| AacAcceptance.SectionDataIsReadIff | trunk/3rdparty/ffmpeg-4-fit/libavcodec/aacdec_template.c:1430-1469 | the same for all window groups |
| AacTrellis.TablesAreRunBits | trunk/3rdparty/ffmpeg-4-fit/libavcodec/aacenctab.h:90-101 | the run-length tables hold the bits that a run really takes, except for a run of exactly two escapes |
| AacTrellis.AllowedCodebooks | trunk/3rdparty/ffmpeg-4-fit/libavcodec/aaccoder_trellis.h:104-122 | which codebooks of the standard a band may take: its own and those above it with code words, or its own alone for noise and intensity stereo, or codebook 0 when it is zero |
| AacTrellis.RootedIsSound | trunk/3rdparty/ffmpeg-4-fit/libavcodec/aaccoder_trellis.h:79-169 | every cell from which going back reaches the first row ends a path of exactly the cost in the cell, whose runs have at least one band and use allowed codebooks |
| AacTrellis.CheapIsRooted | trunk/3rdparty/ffmpeg-4-fit/libavcodec/aaccoder_trellis.h:79-169 | going back from a cell below the sentinel reaches the first row |
| AacTrellis.EndsIffRooted | trunk/3rdparty/ffmpeg-4-fit/libavcodec/aaccoder_trellis.h:161-169 | the loop that goes back comes to its end, whatever is in the row that was never written, if and only if every run on the way has at least one band: through a cell without a path it need not |
| AacTrellisCost.PathIsWrittenAndRead | trunk/3rdparty/ffmpeg-4-fit/libavcodec/aaccoder_trellis.h:75-188 | the path found, which is empty without bands, is a partition into runs, its cost is the number of bits written up to the missed fields, and the decoder reads it back |
| AacTrellisCost.CostIsExactIff | trunk/3rdparty/ffmpeg-4-fit/libavcodec/aaccoder_trellis.h:75-188 | the cost equals the section bits plus the spectral bits iff no run has exactly two escapes |
| AacTrellisCost.BandsAreInexact | trunk/3rdparty/ffmpeg-4-fit/libavcodec/aaccoder_trellis.h:79-119 | for every sampling rate with 14 or 15 bands in short windows, bands of that many whose bits and codebooks are those of quantised coefficients and for which the cost of the chosen path is less than what is written |
| AacTrellisCost.ExactIffFewBands | trunk/3rdparty/ffmpeg-4-fit/libavcodec/aaccoder_trellis.h:64-66 | for every sampling rate, kind of window and number of bands in its table: the cost of the chosen path is the number of bits written for all quantised coefficients iff there are fewer than two escapes of bands |
| AacCodewords.EscapeBookIsAffordable | trunk/3rdparty/ffmpeg-4-fit/libavcodec/aacenc_quantization.h:77-135 | codebook 11 takes at most 28 bits for a coefficient |
| AacTrellisEnds.AffordableEnds | trunk/3rdparty/ffmpeg-4-fit/libavcodec/aaccoder_trellis.h:155-169 | if a section of its own for every band, in its cheapest codebook, stays below the sentinel, the chosen end costs no more than that and going back comes to its end |
| AacTrellisEnds.TiesStay | trunk/3rdparty/ffmpeg-4-fit/libavcodec/aaccoder_trellis.h:84-98 | a new section is begun only if it is cheaper than one band more, and then behind the first of the cheapest codebooks |
| AacTrellisEnds.QuantisedEnds | trunk/3rdparty/ffmpeg-4-fit/libavcodec/aaccoder_trellis.h:155-169 | going back comes to its end for any quantised coefficients and any band types of a window group, at every sampling rate |
| AacTrellisEnds.TooDearMayNotEnd | trunk/3rdparty/ffmpeg-4-fit/libavcodec/aaccoder_trellis.h:155-169 | going back is not sure to come to its end when the cheapest codebooks of all bands in one section exceed the sentinel |
| AacTrellisOptimal.EndsIffSomePathIsCheap | trunk/3rdparty/ffmpeg-4-fit/libavcodec/aaccoder_trellis.h:155-169 | with fewer bands than an escape, going back is sure to come to its end iff some path is cheaper than the sentinel, unless one costs exactly as much |
| AacTrellisOptimal.FewBandsAreOptimal | trunk/3rdparty/ffmpeg-4-fit/libavcodec/aaccoder_trellis.h:50-57 | with fewer bands than an escape no path is cheaper than the one found |
| AacTrellisOptimal.BandsAreMissed | trunk/3rdparty/ffmpeg-4-fit/libavcodec/aaccoder_trellis.h:79-153 | for every sampling rate, kind of window and larger number of bands in its table: quantised coefficients with the codebooks chosen for their largest magnitudes for which a cheaper path is missed |
| AacTrellisOptimal.OptimalIffFewBands | trunk/3rdparty/ffmpeg-4-fit/libavcodec/aaccoder_trellis.h:50-57 | for every sampling rate, kind of window and number of bands in its table: the search finds a cheapest path for all quantised coefficients, with the codebooks chosen for their largest magnitudes, iff there are fewer bands than an escape |
| AacTrellisCoder.FillTrellis | trunk/3rdparty/ffmpeg-4-fit/libavcodec/aaccoder_trellis.h:75-153 | the loops that fill the table, reading the run-length tables, compute the trellis |
| AacTrellisCoder.CheapestEnd | trunk/3rdparty/ffmpeg-4-fit/libavcodec/aaccoder_trellis.h:157-160 | the first cheapest codebook of the last row |
| AacTrellisCoder.GoBack | trunk/3rdparty/ffmpeg-4-fit/libavcodec/aaccoder_trellis.h:161-169 | the back-tracking loop ends and collects the runs of the path, from every end from which it can |
| AacTrellisCoder.WriteRun | trunk/3rdparty/ffmpeg-4-fit/libavcodec/aaccoder_trellis.h:183-187 | the escapes and the remainder of a run length |
| AacTrellisCoder.WriteSections | trunk/3rdparty/ffmpeg-4-fit/libavcodec/aaccoder_trellis.h:171-188 | the sections are written in order and every band gets its codebook |
| AacTrellisCoder.CodebookTrellisRate | trunk/3rdparty/ffmpeg-4-fit/libavcodec/aaccoder_trellis.h:59-189 | the whole search, for bands whose cheapest codebooks stay below the sentinel: the cheapest end, its sections written, the codebooks stored, and read back by a decoder whatever follows |
| IoVectors.AdvanceAddresses | trunk/3rdparty/st-srs/io.c:537-552 | advanced vectors name exactly the bytes that have not been moved |
| IoVectors.SkipMoved | trunk/3rdparty/st-srs/io.c:537-552 | the inner loop of the `_resid` functions and the two statements after it advance the vectors by exactly the bytes moved |
| IoVectors.ResidualIsRest | trunk/3rdparty/st-srs/io.c:677-721 | the vectors left by a `_resid` function name, in order, exactly what has not been moved |
| IoVectors.WritevResid | trunk/3rdparty/st-srs/io.c:677-721 | on every exit the bytes moved are a prefix of those named, each once; 0 is returned iff no vector is left, and -1 iff a call or a wait has failed; after every call that found too little room the loop waits before the next |
| IoVectors.ReadvResid | trunk/3rdparty/st-srs/io.c:522-559 | likewise for reading, where 0 is also returned at the end of the input |
| IoVectors.WriteResid | trunk/3rdparty/st-srs/io.c:570-582 | the residual length is the original minus the bytes moved, 0 is returned iff it is zero, and -1 iff a call or a wait has failed |
| IoVectors.Write | trunk/3rdparty/st-srs/io.c:585-590 | the full length is returned iff all bytes have been moved, and -1 iff a call or a wait has failed |
| IoVectors.ReadResid | trunk/3rdparty/st-srs/io.c:481-493 | the residual length is the original minus the bytes moved; -1 is returned iff a call or a wait has failed |
| IoVectors.ReadFully | trunk/3rdparty/st-srs/io.c:562-567 | the number of bytes read, fewer than asked for only at the end of the input; -1 iff a call or a wait has failed |
| IoVectors.FindVector | trunk/3rdparty/st-srs/io.c:631-634 | the first vector that is not wholly written, and the offset in it |
| IoVectors.CopyRest | trunk/3rdparty/st-srs/io.c:631-656 | the copied vectors name exactly the unwritten bytes |
| IoVectors.Writev | trunk/3rdparty/st-srs/io.c:593-674 | across all partial writes the bytes accepted are a prefix, without gap or repeat; the full length is returned iff all were accepted, and -1 iff a call or a wait has failed; after a partial write or EAGAIN the loop waits before it goes on |

## Left out

- SchedRuns.Enabled: programs use handles of threads that exist and do not exit while they hold a mutex; the source does not check either.
- VirtualProcessor.Vp: the state, flags and resume point of a thread are entries of a map that the methods reassign, and the heap part of its record is an object; the run, io, zombie and wait queues are sequences instead of linked lists.
- VirtualProcessor.Vp.Resume: the join loop of a woken thread is entered once, because `SchedInv.JoinerFindsZombie` shows that it does not wait again.
- TimeoutHeap.SleepQueue.Add: due times are unbounded integers, so wrap-around of the clock plus a time-out is not modelled.
- Epoll.EventSystem: changing or removing the registration of a registered descriptor succeeds; a refused registration is chosen by the kernel for each call. Growth of the descriptor table and of the event list, and their failure to be allocated, are not modelled, nor is the new initialisation after a fork.
- JsonParser.Parser: comments, memory limits, allocation failure, line and column numbers, error texts and strings of more than 4 GB are not modelled.
- JsonScan.ScanNumber: digits beyond the range of a 64-bit integer overflow in the source and are exact here; the value of a double is not represented.
- JsonRoundTrip.LoadsOfDumps: doubles are excluded, because `%.2f` loses digits.
- JsonFree.FreeValue: nodes are numbered in the order of their allocation instead of being separate heap objects; the parent of the root is treated as absent, as the source sets it to null.
- Amf0Stream.ReadAny: each reader of the source checks again the marker that `discovery` has just seen; the model reads it once.
- Amf0.TotalSize: sizes beyond the range of a 32-bit `int` are not modelled.
- ByteBuffer.SrsBuffer: little-endian readers and writers, `read_bytes` and `set_size` are not modelled; the integer writers are `WriteString` on the bytes of the number.
- AacTrellisCoder.FillTrellis: the number of bits that a codebook takes for a band, summed over the windows of a group, is an input; costs are integers instead of floats.
- AacQuantiser.Quantised: the quantised coefficients are given, so the rounding of the quantiser and its scale factors are not modelled.
- AacQuantiser.FromCoder: a band that is not zero has the codebook for its largest magnitude; bands of noise and intensity stereo and the extra band types of prediction are left aside, so the halves of `AacTrellisCost.ExactIffFewBands` and `AacTrellisOptimal.OptimalIffFewBands` that speak of all bands also hold for them (`AacTrellisCost.FewBandsAreExact`, `AacTrellisOptimal.FewBandsAreOptimal`).
- AacTrellisCoder.CodebookTrellisRate: it requires what `AacTrellisEnds.QuantisedEnds` proves of all quantised coefficients of a window group; the flags of zero bands, which are set from the codebooks found, are not stored.
- AacTrellisOptimal.EndsIffSomePathIsCheap: stated for fewer bands than an escape; for any number of bands `AacTrellis.EndsIffRooted` states when going back is sure to end, and `AacTrellisEnds` gives a sufficient and a necessary condition on the bits.
- AacTrellis.EndsIffRooted: a round that reads the row that was never written reads uninitialised memory in the source; the model lets that row hold anything, and a link in it that is no codebook does not end the loop.
- IoVectors.Writev: the copy of the vectors is a sequence, so the choice between the local array and the heap, and a failed allocation, are not modelled. When the kernel's answers end, every further call fails, so I/O loops are proved for every finite sequence of answers.
- IoVectors.ReadvResid: memory is a set of addresses; overlapping vectors are not excluded, and what a read stores is not represented beyond where it is stored.
- Destruction of condition variables and mutexes, private thread data, clean-up handlers, `st_thread_create`'s stacks, switch callbacks and statistics: they do not touch the queues.
- The select, poll and kqueue back ends, descriptor limits and accept serialisation.
- `to_json`, `to_amf0`, `human_print`, `copy` and `remove`: easy recursions over the same trees.
