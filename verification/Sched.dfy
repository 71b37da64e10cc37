/**
  The State Threads scheduler (`sched.c`, `sync.c`, `common.h`) as a transition function over a
  value. Each function below is the code of one library call up to its context switch, or the
  code that a thread runs right after it is switched in (`Resume`).
 */
module Sched {
  import opened Wrappers
  import opened TimeoutHeapSpec
  import opened Epoll

  type Tid = nat

  datatype State = Running | Runnable | IoWait | LockWait | CondWait | Sleeping | Zombie | Suspended

  /** A condition variable made by the program, or the termination condition of a thread. */
  datatype CondId = User(id: nat) | Term(tid: Tid)

  /**
    Where a thread continues when it is switched in. A thread that is `InPoll` has its
    `_st_pollq_t` on its stack: the poll descriptors and the `on_ioq` mark.
   */
  datatype Resume =
    | Active
    | Fresh
    | InPoll(pds: seq<Pollfd>, onIoq: bool)
    | InSleep
    | InCond(cond: CondId)
    | InJoin(target: Tid)
    | InLock(mutex: nat)
    | InYield
    | InExit
    | InIdle

  datatype Thread = Thread(
    state: State, onSleepQ: bool, interrupt: bool, timedOut: bool,
    due: int, joinable: bool, at: Resume)

  datatype Sched = Sched(
    threads: map<Tid, Thread>, current: Tid, idle: Tid,
    runq: seq<Tid>, ioq: seq<Tid>, zombieq: seq<Tid>,
    sleepq: Heap<Tid>, lastClock: int,
    condq: map<CondId, seq<Tid>>, lockq: map<nat, seq<Tid>>, owner: map<nat, Tid>,
    activeCount: int, nextTid: nat, ep: EpollData, exited: bool)

  datatype Errno = NoError | EINTR | ETIME | EINVAL | EDEADLK | EPERM | EBUSY | EPoll

  /** A call returned, or its caller was switched out. */
  datatype Result = Blocked | Done(rc: int, errno: Errno)

  const OK := Done(0, NoError)

  /** What a lookup of a thread that does not exist gives; it is on no queue. */
  const NO_THREAD := Thread(Suspended, false, false, false, 0, false, Active)

  function Th(s: Sched, t: Tid): Thread {
    if t in s.threads then s.threads[t] else NO_THREAD
  }

  function SetTh(s: Sched, t: Tid, th: Thread): Sched {
    s.(threads := s.threads[t := th])
  }

  /** A wait queue; one that was never used is empty. */
  function QueueOf<K>(queues: map<K, seq<Tid>>, k: K): seq<Tid> {
    if k in queues then queues[k] else []
  }

  function CondQ(s: Sched, c: CondId): seq<Tid> {
    QueueOf(s.condq, c)
  }

  function LockQ(s: Sched, m: nat): seq<Tid> {
    QueueOf(s.lockq, m)
  }

  /** ST_REMOVE_LINK of t's link. */
  function Without(q: seq<Tid>, t: Tid): seq<Tid> {
    if q == [] then []
    else if q[0] == t then q[1..]
    else [q[0]] + Without(q[1..], t)
  }

  /** The `heap_index` of t, or 0 when t is not in the heap. */
  function Position(h: Heap<Tid>, t: Tid): (i: nat)
    ensures i <= |h|
    ensures i > 0 ==> At(h, i).item == t
  {
    if h == [] then 0
    else if h[|h| - 1].item == t then |h|
    else Position(h[..|h| - 1], t)
  }

  // ---------------------------------------------------------------- sleep queue, run queue

  function AddSleepQ(s: Sched, t: Tid, timeout: nat): Sched {
    var due := s.lastClock + timeout;
    SetTh(s, t, Th(s, t).(due := due, onSleepQ := true)).(sleepq := HeapInsert(s.sleepq, Timed(t, due)))
  }

  function AddSleepQIf(s: Sched, t: Tid, timeout: Option<nat>): Sched {
    match timeout
    case None => s
    case Some(n) => AddSleepQ(s, t, n)
  }

  function DelSleepQ(s: Sched, t: Tid): Sched {
    var i := Position(s.sleepq, t);
    if i == 0 then s
    else SetTh(s, t, Th(s, t).(onSleepQ := false)).(sleepq := HeapDelete(s.sleepq, i))
  }

  /** Takes a waiting thread off the sleep queue and appends it to the run queue. */
  function MakeRunnable(s: Sched, t: Tid): Sched {
    var s1 := if Th(s, t).onSleepQ then DelSleepQ(s, t) else s;
    SetTh(s1, t, Th(s1, t).(state := Runnable)).(runq := s1.runq + [t])
  }

  /** One round of the loop of `_st_vp_check_clock`: the root of the heap is due. */
  function ExpireRoot(s: Sched): (s': Sched)
    requires s.sleepq != []
    ensures |s'.sleepq| < |s.sleepq|
  {
    var t := s.sleepq[0].item;
    var th := Th(s, t);
    SetTh(s, t, th.(onSleepQ := false, timedOut := th.timedOut || th.state == CondWait, state := Runnable))
    .(sleepq := HeapDelete(s.sleepq, 1), runq := [t] + s.runq)
  }

  function Expire(s: Sched, now: int): Sched
    decreases |s.sleepq|
  {
    if s.sleepq == [] || s.sleepq[0].due > now then s else Expire(ExpireRoot(s), now)
  }

  /** `_st_vp_check_clock`. */
  function CheckClock(s: Sched, now: int): Sched {
    Expire(s.(lastClock := now), now)
  }

  /** `_st_vp_schedule`: the head of the run queue, or else the idle thread, is switched in. */
  function Schedule(s: Sched): Sched {
    if s.runq != []
    then SetTh(s, s.runq[0], Th(s, s.runq[0]).(state := Running)).(runq := s.runq[1..], current := s.runq[0])
    else SetTh(s, s.idle, Th(s, s.idle).(state := Running)).(current := s.idle)
  }

  /** The running thread is parked in `state` at `at` and another one is switched in. */
  function Park(s: Sched, state: State, at: Resume): Sched {
    SetTh(s, s.current, Th(s, s.current).(state := state, at := at))
  }

  /** The check for a pending interrupt at the start of a blocking call. */
  function TakeInterrupt(s: Sched): Sched {
    SetTh(s, s.current, Th(s, s.current).(interrupt := false))
  }

  // ---------------------------------------------------------------- threads

  function Create(s: Sched, joinable: bool): Sched {
    var t := s.nextTid;
    SetTh(s, t, Thread(Runnable, false, false, false, 0, joinable, Fresh))
    .(nextTid := t + 1, activeCount := s.activeCount + 1, runq := s.runq + [t])
  }

  /** The end of a thread: its stack is freed and it is never switched in again. */
  function Vanish(s: Sched): Sched {
    s.(threads := s.threads - {s.current})
  }

  /** `st_thread_exit`. */
  function Exit(s: Sched): Sched {
    var s1 := s.(activeCount := s.activeCount - 1);
    if Th(s, s.current).joinable then
      var s2 := Park(s1, Zombie, InExit).(zombieq := s1.zombieq + [s.current]);
      Schedule(Signal(s2, Term(s.current), false))
    else
      Schedule(Vanish(s1))
  }

  /** The end of `st_thread_join`: the zombie is made runnable to clean up. */
  function Reap(s: Sched, x: Tid): Sched {
    SetTh(s, x, Th(s, x).(state := Runnable)).(zombieq := Without(s.zombieq, x), runq := s.runq + [x])
  }

  /** `st_thread_join` up to the first context switch. */
  function Join(s: Sched, x: Tid): (Sched, Result) {
    if !Th(s, x).joinable then (s, Done(-1, EINVAL))
    else if s.current == x then (s, Done(-1, EDEADLK))
    else if CondQ(s, Term(x)) != [] then (s, Done(-1, EINVAL))
    else JoinLoop(s, x)
  }

  function JoinLoop(s: Sched, x: Tid): (Sched, Result) {
    if Th(s, x).state == Zombie then (Reap(s, x), OK)
    else Wait(s, Term(x), None, InJoin(x))
  }

  /** `st_thread_yield`. */
  function Yield(s: Sched, now: int): (Sched, Result) {
    var s1 := CheckClock(s, now);
    if s1.runq == [] then (s1, OK)
    else
      var s2 := Park(s1, Runnable, InYield);
      (Schedule(s2.(runq := s2.runq + [s.current])), Blocked)
  }

  /** `st_thread_interrupt`. */
  function Interrupt(s: Sched, t: Tid): Sched {
    if Th(s, t).state == Zombie then s
    else
      var s1 := SetTh(s, t, Th(s, t).(interrupt := true));
      if Th(s, t).state == Running || Th(s, t).state == Runnable then s1
      else MakeRunnable(s1, t)
  }

  /** `st_usleep`. */
  function USleep(s: Sched, timeout: Option<nat>): (Sched, Result) {
    if Th(s, s.current).interrupt then (TakeInterrupt(s), Done(-1, EINTR))
    else
      var s1 := Park(s, if timeout.Some? then Sleeping else Suspended, InSleep);
      (Schedule(AddSleepQIf(s1, s.current, timeout)), Blocked)
  }

  // ---------------------------------------------------------------- condition variables

  /** `st_cond_timedwait`, entered from the program or from `st_thread_join`. */
  function Wait(s: Sched, c: CondId, timeout: Option<nat>, at: Resume): (Sched, Result) {
    if Th(s, s.current).interrupt then (TakeInterrupt(s), Done(-1, EINTR))
    else
      var s1 := Park(s, CondWait, at);
      var s2 := s1.(condq := s1.condq[c := CondQ(s1, c) + [s.current]]);
      (Schedule(AddSleepQIf(s2, s.current, timeout)), Blocked)
  }

  /** The loop of `_st_cond_signal` from some point of the queue on. */
  function SignalFrom(s: Sched, q: seq<Tid>, broadcast: bool): Sched
    decreases |q|
  {
    if q == [] then s
    else if Th(s, q[0]).state != CondWait then SignalFrom(s, q[1..], broadcast)
    else if broadcast then SignalFrom(MakeRunnable(s, q[0]), q[1..], true)
    else MakeRunnable(s, q[0])
  }

  function Signal(s: Sched, c: CondId, broadcast: bool): Sched {
    SignalFrom(s, CondQ(s, c), broadcast)
  }

  // ---------------------------------------------------------------- mutexes

  /** `st_mutex_lock` up to the context switch. */
  function Lock(s: Sched, m: nat): (Sched, Result) {
    if Th(s, s.current).interrupt then (TakeInterrupt(s), Done(-1, EINTR))
    else if m !in s.owner then (s.(owner := s.owner[m := s.current]), OK)
    else if s.owner[m] == s.current then (s, Done(-1, EDEADLK))
    else
      var s1 := Park(s, LockWait, InLock(m));
      (Schedule(s1.(lockq := s1.lockq[m := LockQ(s1, m) + [s.current]])), Blocked)
  }

  /** The index of the first thread of q that still waits for the mutex, or |q|. */
  function FirstWaiter(s: Sched, q: seq<Tid>): (i: nat)
    ensures i <= |q|
    ensures forall j :: 0 <= j < i ==> Th(s, q[j]).state != LockWait
    ensures i < |q| ==> Th(s, q[i]).state == LockWait
  {
    if q == [] then 0
    else if Th(s, q[0]).state == LockWait then 0
    else 1 + FirstWaiter(s, q[1..])
  }

  /** `st_mutex_unlock`: the mutex is handed to the first waiter. */
  function Unlock(s: Sched, m: nat): (Sched, Result) {
    if m !in s.owner || s.owner[m] != s.current then (s, Done(-1, EPERM))
    else
      var q := LockQ(s, m);
      var i := FirstWaiter(s, q);
      if i == |q| then (s.(owner := s.owner - {m}), OK)
      else
        var s1 := s.(owner := s.owner[m := q[i]]);
        (SetTh(s1, q[i], Th(s1, q[i]).(state := Runnable)).(runq := s1.runq + [q[i]]), OK)
  }

  /** `st_mutex_trylock`. */
  function TryLock(s: Sched, m: nat): (Sched, Result) {
    if m in s.owner then (s, Done(-1, EBUSY))
    else (s.(owner := s.owner[m := s.current]), OK)
  }

  // ---------------------------------------------------------------- I/O

  /** `st_poll` up to the context switch. */
  function Poll(s: Sched, pds: seq<Pollfd>, timeout: Option<nat>, refused: set<int>): (Sched, Result) {
    if Th(s, s.current).interrupt then (TakeInterrupt(s), Done(-1, EINTR))
    else
      var (ep, r) := AddPollset(s.ep, pds, refused);
      if r != Added then (s.(ep := ep), Done(-1, if r == Invalid then EINVAL else EPoll))
      else
        var s1 := Park(s, IoWait, InPoll(pds, true)).(ep := ep, ioq := s.ioq + [s.current]);
        (Schedule(AddSleepQIf(s1, s.current, timeout)), Blocked)
  }

  function PdsOf(s: Sched, t: Tid): seq<Pollfd> {
    if Th(s, t).at.InPoll? then Th(s, t).at.pds else []
  }

  /** The poll descriptors with the `revents` of the current dispatch. */
  function WithRevents(e: EpollData, pds: seq<Pollfd>): (r: seq<Pollfd>)
    ensures |r| == |pds|
    ensures forall i :: 0 <= i < |pds| ==> r[i] == pds[i].(revents := RevOf(e, pds[i]))
  {
    seq(|pds|, i requires 0 <= i < |pds| => pds[i].(revents := RevOf(e, pds[i])))
  }

  /** The number of descriptors with events. */
  function ReadyCount(pds: seq<Pollfd>): nat {
    if pds == [] then 0
    else ReadyCount(pds[..|pds| - 1]) + (if pds[|pds| - 1].revents != NO_EVENTS then 1 else 0)
  }

  /** The body of the loop of `_st_epoll_dispatch` over the io queue, for the pollq of thread t. */
  function DispatchOne(s: Sched, t: Tid): Sched {
    var pds := WithRevents(s.ep, PdsOf(s, t));
    if ReadyCount(pds) == 0 then
      SetTh(s, t, Th(s, t).(at := InPoll(pds, true)))
    else
      var s1 := SetTh(s, t, Th(s, t).(at := InPoll(pds, false)));
      MakeRunnable(s1.(ioq := Without(s1.ioq, t), ep := DelAll(s1.ep, pds)), t)
  }

  function DispatchAll(s: Sched, q: seq<Tid>): Sched {
    if q == [] then s else DispatchOne(DispatchAll(s, q[..|q| - 1]), q[|q| - 1])
  }

  /** `_st_epoll_dispatch` after epoll_wait. */
  function Dispatch(s: Sched, fired: seq<Fired>): Sched {
    if fired == [] then s
    else
      var s1 := DispatchAll(s.(ep := Mark(s.ep, fired)), s.ioq);
      s1.(ep := Finish(s1.ep, fired))
  }

  /** One round of `_st_idle_thread_start`. */
  function IdleRound(s: Sched, now: int, fired: seq<Fired>): Sched {
    if s.activeCount <= 0 then s.(exited := true)
    else
      var s1 := CheckClock(Dispatch(s, fired), now);
      Schedule(Park(s1, Runnable, InIdle))
  }

  // ---------------------------------------------------------------- after the context switch

  function Continue(s: Sched): Sched {
    SetTh(s, s.current, Th(s, s.current).(at := Active))
  }

  /** The end of `st_cond_timedwait`. */
  function AfterWait(s: Sched, c: CondId): (Sched, Result) {
    var me := Th(s, s.current);
    var s1 := s.(condq := s.condq[c := Without(CondQ(s, c), s.current)]);
    (SetTh(s1, s.current, me.(at := Active, timedOut := false, interrupt := false)),
     if me.interrupt then Done(-1, EINTR) else if me.timedOut then Done(-1, ETIME) else OK)
  }

  /** The code between the context switch and the return of the call the running thread is in. */
  function Resumed(s: Sched): (Sched, Result) {
    var t := s.current;
    var me := Th(s, t);
    match me.at
    case InPoll(pds, onIoq) =>
      var s1 := if onIoq then s.(ioq := Without(s.ioq, t), ep := DelAll(s.ep, pds)) else s;
      (Continue(TakeInterrupt(s1)),
       if me.interrupt then Done(-1, EINTR) else Done(if onIoq then 0 else ReadyCount(pds), NoError))
    case InSleep =>
      (Continue(TakeInterrupt(s)), if me.interrupt then Done(-1, EINTR) else OK)
    case InCond(c) => AfterWait(s, c)
    case InJoin(x) =>
      var (s1, r) := AfterWait(s, Term(x));
      if r != OK then (s1, r) else JoinLoop(s1, x)
    case InLock(m) =>
      var s1 := s.(lockq := s.lockq[m := Without(LockQ(s, m), t)]);
      if me.interrupt && !(m in s.owner && s.owner[m] == t)
      then (Continue(TakeInterrupt(s1)), Done(-1, EINTR))
      else (Continue(s1), OK)
    case InExit => (Schedule(Vanish(s)), Blocked)
    case _ => (Continue(s), OK)
  }
}
