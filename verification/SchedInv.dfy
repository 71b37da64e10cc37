/**
  What every step of the scheduler keeps: on which queue a thread is, in terms of its state,
  its flags and the place where it will be resumed.
 */
module SchedInv {
  import opened Wrappers
  import opened TimeoutHeapSpec
  import opened Epoll
  import opened Sched

  // ---------------------------------------------------------------- queues

  ghost predicate Distinct<T(!new)>(q: seq<T>) {
    forall i, j :: 0 <= i < j < |q| ==> q[i] != q[j]
  }

  lemma DistinctAppend(q: seq<Tid>, t: Tid)
    requires Distinct(q) && t !in q
    ensures Distinct(q + [t])
    ensures forall x :: x in q + [t] <==> x in q || x == t
  {
  }

  lemma DistinctPrepend(q: seq<Tid>, t: Tid)
    requires Distinct(q) && t !in q
    ensures Distinct([t] + q)
    ensures forall x :: x in [t] + q <==> x in q || x == t
  {
  }

  lemma DistinctTail(q: seq<Tid>)
    requires Distinct(q) && q != []
    ensures Distinct(q[1..]) && q[0] !in q[1..]
    ensures forall x :: x in q[1..] <==> x in q && x != q[0]
  {
    assert q == [q[0]] + q[1..];
    assert forall x :: x in q <==> x == q[0] || x in q[1..];
  }

  lemma {:induction false} WithoutEffect(q: seq<Tid>, t: Tid)
    requires Distinct(q)
    ensures Distinct(Without(q, t))
    ensures forall x :: x in Without(q, t) <==> x in q && x != t
    ensures t !in q ==> Without(q, t) == q
  {
    if q != [] {
      DistinctTail(q);
      if q[0] != t {
        WithoutEffect(q[1..], t);
        DistinctPrepend(Without(q[1..], t), q[0]);
      }
    }
  }

  // ---------------------------------------------------------------- the parts of the invariant

  predicate IsWaiting(state: State) {
    state in {IoWait, LockWait, CondWait, Sleeping, Suspended}
  }

  predicate IsReady(state: State) {
    state == Runnable || state == Running
  }

  /** The condition queue a thread is linked on, if any. */
  predicate WaitsFor(at: Resume, c: CondId) {
    at == InCond(c) || (at.InJoin? && c == Term(at.target))
  }

  ghost predicate RunOk(s: Sched) {
    Distinct(s.runq) && forall t :: t in s.runq <==> Th(s, t).state == Runnable && t != s.idle
  }

  ghost predicate ZombieOk(s: Sched) {
    Distinct(s.zombieq) && forall t :: t in s.zombieq <==> Th(s, t).state == Zombie
  }

  ghost predicate IoOk(s: Sched) {
    Distinct(s.ioq) && forall t :: t in s.ioq <==> Th(s, t).at.InPoll? && Th(s, t).at.onIoq
  }

  ghost predicate CondOk(s: Sched) {
    && (forall c :: Distinct(QueueOf(s.condq, c)))
    && (forall t, c :: t in QueueOf(s.condq, c) <==> WaitsFor(Th(s, t).at, c))
    && (forall x :: |QueueOf(s.condq, Term(x))| <= 1)
  }

  ghost predicate LockOk(s: Sched) {
    && (forall m :: Distinct(QueueOf(s.lockq, m)))
    && (forall t, m :: t in QueueOf(s.lockq, m) <==> Th(s, t).at == InLock(m))
  }

  /** The heap holds each thread that is marked as being on it exactly once, with its due time. */
  ghost predicate SleepOk(s: Sched) {
    && Ordered(s.sleepq)
    && (forall e :: multiset(s.sleepq)[e] <= 1)
    && (forall e :: e in s.sleepq <==> Th(s, e.item).onSleepQ && Th(s, e.item).due == e.due)
  }

  /** The state in which a thread can be while it is to be resumed at a given place. */
  predicate StateFits(th: Thread) {
    match th.at
    case Active => th.state == Running
    case Fresh => IsReady(th.state)
    case InPoll(_, onIoq) => IsReady(th.state) || (th.state == IoWait && onIoq)
    case InSleep => IsReady(th.state) || th.state == Suspended || (th.state == Sleeping && th.onSleepQ)
    case InCond(_) => IsReady(th.state) || th.state == CondWait
    case InJoin(_) => IsReady(th.state) || th.state == CondWait
    case InLock(_) => IsReady(th.state) || th.state == LockWait
    case InYield => IsReady(th.state)
    case InExit => IsReady(th.state) || th.state == Zombie
    case InIdle => IsReady(th.state)
  }

  predicate FlagsFit(th: Thread) {
    && (th.onSleepQ ==> th.state in {IoWait, CondWait, Sleeping} && !th.at.InJoin?)
    && (IsWaiting(th.state) ==> !th.interrupt)
    && (th.timedOut ==> th.at.InCond? && IsReady(th.state))
    && (th.at.InExit? ==> th.joinable)
  }

  /** A thread blocked in `st_mutex_lock` waits for another owner; one that was woken owns the mutex or was interrupted. */
  predicate LockFits(s: Sched, t: Tid) {
    var th := Th(s, t);
    th.at.InLock? ==>
      var m := th.at.mutex;
      if th.state == LockWait then m in s.owner && s.owner[m] != t
      else th.interrupt || (m in s.owner && s.owner[m] == t)
  }

  /** A thread blocked in `st_thread_join` waits for a thread that is not a zombie; one that was woken finds a zombie or was interrupted. */
  predicate JoinFits(s: Sched, t: Tid) {
    var th := Th(s, t);
    th.at.InJoin? ==>
      var x := th.at.target;
      && x < s.nextTid
      && if th.state == CondWait then Th(s, x).state != Zombie
         else th.interrupt || (x in s.threads && Th(s, x).state == Zombie)
  }

  ghost predicate ThreadsOk(s: Sched) {
    && s.idle in s.threads
    && (forall t :: t in s.threads ==> StateFits(s.threads[t]) && FlagsFit(s.threads[t]))
    && (forall t :: t in s.threads ==> t < s.nextTid && (t == s.idle <==> s.threads[t].at == InIdle))
  }

  ghost predicate LocksFit(s: Sched) {
    && (forall t :: t in s.threads ==> LockFits(s, t))
    && (forall m :: m in s.owner ==> s.owner[m] in s.threads && !s.threads[s.owner[m]].at.InExit?)
  }

  ghost predicate JoinsFit(s: Sched) {
    forall t :: t in s.threads ==> JoinFits(s, t)
  }

  /** The threads that keep the program running: neither the idle thread nor those that have called exit. */
  ghost function ActiveSet(s: Sched): set<Tid> {
    set t | t in s.threads && t != s.idle && !s.threads[t].at.InExit?
  }

  function TotalRefs(s: Sched, q: seq<Tid>, fd: int, k: Kind): nat {
    if q == [] then 0
    else TotalRefs(s, q[..|q| - 1], fd, k) + Refs(PdsOf(s, q[|q| - 1]), fd, k)
  }

  /** Each reference count is the number of poll entries on the io queue that ask for that event. */
  ghost predicate Counted(s: Sched) {
    forall fd, k :: Count(Data(s.ep, fd), k) == TotalRefs(s, s.ioq, fd, k)
  }

  ghost predicate EpollOk(s: Sched) {
    Consistent(s.ep) && Counted(s)
  }

  ghost predicate QueuesOk(s: Sched) {
    RunOk(s) && ZombieOk(s) && IoOk(s) && CondOk(s) && LockOk(s) && SleepOk(s)
  }

  ghost predicate Core(s: Sched) {
    QueuesOk(s) && ThreadsOk(s) && s.activeCount == |ActiveSet(s)|
  }

  /** The part of the invariant that also holds while a step is under way. */
  ghost predicate Quiet(s: Sched) {
    Core(s) && LocksFit(s) && JoinsFit(s) && EpollOk(s)
  }

  ghost predicate NobodyRuns(s: Sched) {
    forall t :: t in s.threads ==> s.threads[t].state != Running
  }

  /** Exactly one thread is running. */
  ghost predicate OneRuns(s: Sched) {
    && s.current in s.threads
    && (forall t :: t in s.threads ==> (s.threads[t].state == Running <==> t == s.current))
  }

  ghost predicate Inv(s: Sched) {
    && Quiet(s) && OneRuns(s)
    && (s.current == s.idle ==> s.runq == [])
  }

  // ---------------------------------------------------------------- sleep queue

  lemma SleepFrame(s: Sched, s': Sched)
    requires SleepOk(s) && s'.sleepq == s.sleepq
    requires forall t :: Th(s', t).onSleepQ == Th(s, t).onSleepQ
    requires forall t :: Th(s, t).onSleepQ ==> Th(s', t).due == Th(s, t).due
    ensures SleepOk(s')
  {
  }

  lemma {:induction false} PositionFound(h: Heap<Tid>, t: Tid)
    ensures Position(h, t) == 0 ==> forall e :: e in h ==> e.item != t
  {
    if h != [] && h[|h| - 1].item != t {
      PositionFound(h[..|h| - 1], t);
      assert h == h[..|h| - 1] + [h[|h| - 1]];
    }
  }

  lemma AddSleepQEffect(s: Sched, t: Tid, timeout: nat)
    requires SleepOk(s) && t in s.threads && !Th(s, t).onSleepQ
    ensures var s' := AddSleepQ(s, t, timeout);
            && SleepOk(s')
            && s' == s.(threads := s.threads[t := Th(s, t).(due := s.lastClock + timeout, onSleepQ := true)],
                        sleepq := s'.sleepq)
  {
    var s' := AddSleepQ(s, t, timeout);
    var x := Timed(t, s.lastClock + timeout);
    InsertContents(s.sleepq, x);
    InsertOrder(s.sleepq, x);
    assert x !in s.sleepq;
    forall e
      ensures e in s'.sleepq <==> e in s.sleepq || e == x
      ensures multiset(s'.sleepq)[e] <= 1
    {
      assert e in s'.sleepq <==> e in multiset(s'.sleepq);
      assert e in s.sleepq <==> e in multiset(s.sleepq);
    }
  }

  lemma DelAtEffect(s: Sched, s': Sched, t: Tid, i: nat)
    requires SleepOk(s) && 1 <= i <= |s.sleepq| && At(s.sleepq, i).item == t
    requires s'.sleepq == HeapDelete(s.sleepq, i)
    requires forall x :: x != t ==> Th(s', x).onSleepQ == Th(s, x).onSleepQ && Th(s', x).due == Th(s, x).due
    requires !Th(s', t).onSleepQ
    ensures SleepOk(s')
  {
    var x := At(s.sleepq, i);
    DeleteContents(s.sleepq, i);
    DeleteOrder(s.sleepq, i);
    assert x in s.sleepq;
    forall e
      ensures e in s'.sleepq <==> e in s.sleepq && e != x
      ensures multiset(s'.sleepq)[e] <= 1
    {
      assert e in s'.sleepq <==> e in multiset(s'.sleepq);
      assert e in s.sleepq <==> e in multiset(s.sleepq);
      assert multiset(s.sleepq)[x] == multiset(s'.sleepq)[x] + 1;
    }
  }

  lemma MakeRunnableEffect(s: Sched, t: Tid)
    requires SleepOk(s) && t in s.threads
    ensures var s' := MakeRunnable(s, t);
            && SleepOk(s')
            && s' == s.(threads := s.threads[t := Th(s, t).(state := Runnable, onSleepQ := false)],
                        sleepq := s'.sleepq, runq := s.runq + [t])
  {
    var s' := MakeRunnable(s, t);
    if Th(s, t).onSleepQ {
      PositionFound(s.sleepq, t);
      assert Timed(t, Th(s, t).due) in s.sleepq;
      DelAtEffect(s, s', t, Position(s.sleepq, t));
    }
  }

  lemma ExpireRootEffect(s: Sched)
    requires SleepOk(s) && s.sleepq != []
    ensures var t := s.sleepq[0].item; var th := Th(s, t);
            && th.onSleepQ && t in s.threads && th.due == s.sleepq[0].due
            && SleepOk(ExpireRoot(s))
  {
    assert s.sleepq[0] in s.sleepq;
    DelAtEffect(s, ExpireRoot(s), s.sleepq[0].item, 1);
  }

  // ---------------------------------------------------------------- poll references

  lemma {:induction false} TotalRefsFrame(s: Sched, s': Sched, q: seq<Tid>, fd: int, k: Kind)
    requires forall t :: t in q ==> PdsOf(s', t) == PdsOf(s, t)
    ensures TotalRefs(s', q, fd, k) == TotalRefs(s, q, fd, k)
  {
    if q != [] {
      TotalRefsFrame(s, s', q[..|q| - 1], fd, k);
    }
  }

  lemma CountedFrame(s: Sched, s': Sched)
    requires Counted(s) && s'.ep == s.ep && s'.ioq == s.ioq
    requires forall t :: t in s.ioq ==> PdsOf(s', t) == PdsOf(s, t)
    ensures Counted(s')
  {
    forall fd, k
      ensures Count(Data(s'.ep, fd), k) == TotalRefs(s', s'.ioq, fd, k)
    {
      TotalRefsFrame(s, s', s.ioq, fd, k);
    }
  }

  /** Thread t joins the ready threads; nothing else changes but the sleep queue. */
  ghost predicate Woken(s: Sched, s': Sched, t: Tid, th: Thread) {
    && t in s.threads && t != s.idle
    && IsWaiting(Th(s, t).state)
    && th.state == Runnable && !th.onSleepQ && th.at == Th(s, t).at && th.joinable == Th(s, t).joinable
    && (th.timedOut ==> th.at.InCond?)
    && (s'.runq == s.runq + [t] || s'.runq == [t] + s.runq)
    && s' == s.(threads := s.threads[t := th], runq := s'.runq, sleepq := s'.sleepq, owner := s'.owner)
  }

  lemma WokenQueues(s: Sched, s': Sched, t: Tid, th: Thread)
    requires QueuesOk(s) && Woken(s, s', t, th)
    ensures RunOk(s') && ZombieOk(s') && IoOk(s') && CondOk(s') && LockOk(s')
  {
    DistinctAppend(s.runq, t);
    DistinctPrepend(s.runq, t);
  }

  lemma WokenThreads(s: Sched, s': Sched, t: Tid, th: Thread)
    requires ThreadsOk(s) && Woken(s, s', t, th)
    ensures ThreadsOk(s') && ActiveSet(s') == ActiveSet(s)
  {
    assert StateFits(s.threads[t]) && FlagsFit(s.threads[t]);
  }

  lemma WokenQuiet(s: Sched, s': Sched, t: Tid, th: Thread)
    requires Core(s) && EpollOk(s) && Woken(s, s', t, th)
    requires SleepOk(s') && LocksFit(s') && JoinsFit(s')
    ensures Quiet(s')
    ensures OneRuns(s) ==> OneRuns(s')
    ensures NobodyRuns(s) ==> NobodyRuns(s')
  {
    WokenQueues(s, s', t, th);
    WokenThreads(s, s', t, th);
    assert PdsOf(s', t) == PdsOf(s, t);
    CountedFrame(s, s');
  }

  lemma WokenJoins(s: Sched, s': Sched, t: Tid, th: Thread)
    requires Quiet(s) && Woken(s, s', t, th)
    requires th.at.InJoin? ==> th.interrupt || (th.at.target in s.threads && Th(s, th.at.target).state == Zombie)
    ensures JoinsFit(s')
  {
    forall x | x in s'.threads
      ensures JoinFits(s', x)
    {
      assert JoinFits(s, x);
    }
  }

  lemma WokenLocks(s: Sched, s': Sched, t: Tid, th: Thread)
    requires Quiet(s) && Woken(s, s', t, th) && s'.owner == s.owner
    requires th.at.InLock? ==> th.interrupt
    ensures LocksFit(s')
  {
    forall x | x in s'.threads
      ensures LockFits(s', x)
    {
      assert LockFits(s, x);
    }
  }

  // ---------------------------------------------------------------- waking threads

  /** `_st_cond_signal` on a condition variable of the program. */
  lemma {:induction false} SignalKeeps(s: Sched, q: seq<Tid>, broadcast: bool)
    requires Quiet(s) && OneRuns(s)
    requires forall t :: t in q ==> Th(s, t).at.InCond?
    ensures Quiet(SignalFrom(s, q, broadcast)) && OneRuns(SignalFrom(s, q, broadcast))
    decreases |q|
  {
    if q == [] {
    } else if Th(s, q[0]).state != CondWait {
      SignalKeeps(s, q[1..], broadcast);
    } else {
      var s1 := MakeRunnable(s, q[0]);
      WakeWaiterKeeps(s, q[0]);
      if broadcast {
        WokenStayLinked(s, s1, q);
        SignalKeeps(s1, q[1..], true);
      }
    }
  }

  lemma WokenStayLinked(s: Sched, s1: Sched, q: seq<Tid>)
    requires q != [] && forall t :: t in q ==> Th(s, t).at.InCond?
    requires forall x :: x != q[0] ==> Th(s1, x) == Th(s, x)
    requires Th(s1, q[0]).at == Th(s, q[0]).at
    ensures forall t :: t in q[1..] ==> Th(s1, t).at.InCond?
  {
  }

  lemma WakeWaiterKeeps(s: Sched, t: Tid)
    requires Quiet(s) && OneRuns(s)
    requires Th(s, t).at.InCond? && Th(s, t).state == CondWait
    ensures var s' := MakeRunnable(s, t);
            && Quiet(s') && OneRuns(s')
            && (forall x :: x != t ==> Th(s', x) == Th(s, x)) && Th(s', t).at == Th(s, t).at
  {
    var s' := MakeRunnable(s, t);
    MakeRunnableEffect(s, t);
    assert FlagsFit(s.threads[t]);
    CondWokenKeeps(s, s', t, Th(s, t).(state := Runnable, onSleepQ := false));
  }

  lemma CondWokenKeeps(s: Sched, s': Sched, t: Tid, th: Thread)
    requires Quiet(s) && OneRuns(s) && Woken(s, s', t, th) && s'.owner == s.owner && SleepOk(s') && th.at.InCond?
    ensures Quiet(s') && OneRuns(s')
  {
    WokenJoins(s, s', t, th);
    WokenLocks(s, s', t, th);
    WokenQuiet(s, s', t, th);
  }

  lemma ExpireRootKeeps(s: Sched)
    requires Quiet(s) && OneRuns(s) && s.sleepq != []
    ensures Quiet(ExpireRoot(s)) && OneRuns(ExpireRoot(s))
  {
    ExpireRootEffect(s);
    var s' := ExpireRoot(s);
    var t := s.sleepq[0].item;
    assert FlagsFit(s.threads[t]) && StateFits(s.threads[t]);
    WokenJoins(s, s', t, Th(s', t));
    WokenLocks(s, s', t, Th(s', t));
    WokenQuiet(s, s', t, Th(s', t));
  }

  lemma {:induction false} ExpireKeeps(s: Sched, now: int)
    requires Quiet(s) && OneRuns(s)
    ensures Quiet(Expire(s, now)) && OneRuns(Expire(s, now))
    decreases |s.sleepq|
  {
    if !(s.sleepq == [] || s.sleepq[0].due > now) {
      ExpireRootKeeps(s);
      ExpireKeeps(ExpireRoot(s), now);
    }
  }

  /** What only speaks of the records of the threads. */
  lemma SameThreads(s: Sched, s': Sched)
    requires ThreadsOk(s) && LocksFit(s) && JoinsFit(s)
    requires s'.threads == s.threads && s'.idle == s.idle && s'.nextTid == s.nextTid && s'.owner == s.owner
    ensures ThreadsOk(s') && LocksFit(s') && JoinsFit(s') && ActiveSet(s') == ActiveSet(s)
  {
    assert forall t :: LockFits(s', t) == LockFits(s, t) && JoinFits(s', t) == JoinFits(s, t);
  }

  lemma ClockIsIrrelevant(s: Sched, now: int)
    requires Quiet(s) && OneRuns(s)
    ensures Quiet(s.(lastClock := now)) && OneRuns(s.(lastClock := now))
  {
    var s' := s.(lastClock := now);
    QueuesFrame(s, s');
    SameThreads(s, s');
    CountedFrame(s, s');
  }

  lemma CheckClockKeeps(s: Sched, now: int)
    requires Quiet(s) && OneRuns(s)
    ensures Quiet(CheckClock(s, now)) && OneRuns(CheckClock(s, now))
  {
    ClockIsIrrelevant(s, now);
    ExpireKeeps(s.(lastClock := now), now);
  }

  /** Thread t, the head of the run queue or else the idle thread, is switched in. */
  ghost predicate SwitchedIn(s: Sched, s': Sched, t: Tid) {
    && t in s.threads && s.threads[t].state == Runnable
    && t == (if s.runq != [] then s.runq[0] else s.idle)
    && s' == s.(threads := s.threads[t := s.threads[t].(state := Running)], current := t,
                runq := if s.runq != [] then s.runq[1..] else [])
  }

  lemma ScheduleSwitches(s: Sched)
    requires RunOk(s) && NobodyRuns(s) && s.idle in s.threads && StateFits(s.threads[s.idle]) && s.threads[s.idle].at == InIdle
    ensures SwitchedIn(s, Schedule(s), Schedule(s).current)
  {
    if s.runq != [] {
      assert s.runq[0] in s.runq;
    }
  }

  /** `_st_vp_schedule`: a ready thread is switched in. */
  lemma ScheduleKeeps(s: Sched)
    requires Quiet(s) && NobodyRuns(s)
    ensures Inv(Schedule(s))
  {
    assert StateFits(s.threads[s.idle]);
    ScheduleSwitches(s);
    SwitchedInKeeps(s, Schedule(s), Schedule(s).current);
  }

  lemma SwitchedInKeeps(s: Sched, s': Sched, t: Tid)
    requires Quiet(s) && NobodyRuns(s) && SwitchedIn(s, s', t)
    ensures Inv(s')
  {
    SwitchedInQueues(s, s', t);
    SleepFrame(s, s');
    SwitchedInThreads(s, s', t);
    SwitchedInFits(s, s', t);
    CountedFrame(s, s');
    if s.runq != [] {
      assert s.runq[0] in s.runq;
    }
  }

  lemma SwitchedInThreads(s: Sched, s': Sched, t: Tid)
    requires ThreadsOk(s) && t in s.threads && s.threads[t].state == Runnable
    requires s'.threads == s.threads[t := s.threads[t].(state := Running)] && s'.idle == s.idle && s'.nextTid == s.nextTid
    ensures ThreadsOk(s') && ActiveSet(s') == ActiveSet(s)
  {
    assert StateFits(s.threads[t]) && FlagsFit(s.threads[t]);
  }

  lemma SwitchedInQueues(s: Sched, s': Sched, t: Tid)
    requires QueuesOk(s) && SwitchedIn(s, s', t)
    ensures RunOk(s') && ZombieOk(s') && IoOk(s') && CondOk(s') && LockOk(s')
  {
    if s.runq != [] {
      DistinctTail(s.runq);
    }
  }

  lemma SwitchedInFits(s: Sched, s': Sched, t: Tid)
    requires LocksFit(s) && JoinsFit(s) && t in s.threads && s.threads[t].state == Runnable
    requires s'.threads == s.threads[t := s.threads[t].(state := Running)] && s'.owner == s.owner && s'.nextTid == s.nextTid
    ensures LocksFit(s') && JoinsFit(s')
  {
    forall x | x in s'.threads
      ensures LockFits(s', x) && JoinFits(s', x)
    {
      assert LockFits(s, x) && JoinFits(s, x);
    }
  }

  // ---------------------------------------------------------------- blocking calls

  /** A thread of the program is running and is free to make a call. */
  predicate UserRuns(s: Sched) {
    s.current != s.idle && Th(s, s.current).at == Active && !s.exited
  }

  lemma QueuesFrame(s: Sched, s': Sched)
    requires QueuesOk(s)
    requires s'.runq == s.runq && s'.zombieq == s.zombieq && s'.ioq == s.ioq && s'.idle == s.idle
    requires s'.condq == s.condq && s'.lockq == s.lockq && s'.sleepq == s.sleepq
    requires forall t :: var th, th' := Th(s, t), Th(s', t);
               th'.state == th.state && th'.at == th.at && th'.onSleepQ == th.onSleepQ && th'.due == th.due
    ensures QueuesOk(s')
  {
    SleepFrame(s, s');
    assert forall t :: Th(s', t).at == Th(s, t).at && Th(s', t).state == Th(s, t).state;
  }

  lemma SetInterruptKeeps(s: Sched, t: Tid, flag: bool)
    requires Inv(s) && t in s.threads && IsReady(Th(s, t).state)
    requires flag || Th(s, t).at == Active
    ensures Inv(SetTh(s, t, Th(s, t).(interrupt := flag)))
  {
    var s' := SetTh(s, t, Th(s, t).(interrupt := flag));
    SetInterruptThreads(s, t, flag);
    SetInterruptFits(s, t, flag);
    MarkedKeeps(s, s', t);
  }

  lemma MarkedKeeps(s: Sched, s': Sched, t: Tid)
    requires Inv(s) && t in s.threads && s' == s.(threads := s'.threads)
    requires s'.threads == s.threads[t := Th(s, t).(interrupt := Th(s', t).interrupt)]
    requires ThreadsOk(s') && ActiveSet(s') == ActiveSet(s) && LocksFit(s') && JoinsFit(s')
    ensures Inv(s')
  {
    MarkedQueues(s, s', t);
    MarkedRuns(s, s', t);
  }

  lemma MarkedQueues(s: Sched, s': Sched, t: Tid)
    requires QueuesOk(s) && EpollOk(s) && t in s.threads && s' == s.(threads := s'.threads)
    requires s'.threads == s.threads[t := Th(s, t).(interrupt := Th(s', t).interrupt)]
    ensures QueuesOk(s') && EpollOk(s')
  {
    QueuesFrame(s, s');
    CountedFrame(s, s');
  }

  lemma MarkedRuns(s: Sched, s': Sched, t: Tid)
    requires OneRuns(s) && t in s.threads && s'.current == s.current
    requires s'.threads == s.threads[t := Th(s, t).(interrupt := Th(s', t).interrupt)]
    ensures OneRuns(s')
  {
  }

  lemma SetInterruptThreads(s: Sched, t: Tid, flag: bool)
    requires ThreadsOk(s) && t in s.threads && IsReady(Th(s, t).state)
    ensures var s' := SetTh(s, t, Th(s, t).(interrupt := flag)); ThreadsOk(s') && ActiveSet(s') == ActiveSet(s)
  {
    assert StateFits(s.threads[t]) && FlagsFit(s.threads[t]);
  }

  lemma SetInterruptFits(s: Sched, t: Tid, flag: bool)
    requires LocksFit(s) && JoinsFit(s) && t in s.threads && IsReady(Th(s, t).state)
    requires flag || Th(s, t).at == Active
    ensures var s' := SetTh(s, t, Th(s, t).(interrupt := flag)); LocksFit(s') && JoinsFit(s')
  {
    var s' := SetTh(s, t, Th(s, t).(interrupt := flag));
    forall x | x in s'.threads
      ensures LockFits(s', x) && JoinFits(s', x)
    {
      assert LockFits(s, x) && JoinFits(s, x);
    }
  }

  /** The running thread of s has record th in s' and is linked on the queues that th asks for. */
  ghost predicate Parked(s: Sched, s': Sched, th: Thread) {
    && th.state !in {Running, Zombie} && StateFits(th) && FlagsFit(th)
    && (th.at == InIdle <==> s.current == s.idle) && !th.at.InExit?
    && s' == s.(threads := s.threads[s.current := th], runq := s'.runq, ioq := s'.ioq, sleepq := s'.sleepq,
                condq := s'.condq, lockq := s'.lockq, ep := s'.ep)
    && QueuesOk(s') && EpollOk(s')
    && LockFits(s', s.current) && JoinFits(s', s.current)
  }

  /** Once its record is parked nobody runs, and the next thread can be switched in. */
  lemma ParkedIsQuiet(s: Sched, s': Sched, th: Thread)
    requires Quiet(s) && OneRuns(s) && Parked(s, s', th)
    requires Th(s, s.current).at in {Active, InIdle}
    ensures Quiet(s') && NobodyRuns(s')
  {
    ParkedThreads(s, s', th);
    ParkedFits(s, s', th);
  }

  lemma ParkedThreads(s: Sched, s': Sched, th: Thread)
    requires ThreadsOk(s) && OneRuns(s) && Th(s, s.current).at in {Active, InIdle}
    requires StateFits(th) && FlagsFit(th) && (th.at == InIdle <==> s.current == s.idle) && !th.at.InExit? && th.state != Running
    requires s'.threads == s.threads[s.current := th] && s'.idle == s.idle && s'.nextTid == s.nextTid
    ensures ThreadsOk(s') && NobodyRuns(s') && ActiveSet(s') == ActiveSet(s)
  {
  }

  lemma ParkedFits(s: Sched, s': Sched, th: Thread)
    requires Quiet(s) && OneRuns(s) && Parked(s, s', th)
    ensures LocksFit(s') && JoinsFit(s')
  {
    forall x | x in s'.threads
      ensures LockFits(s', x) && JoinFits(s', x)
    {
      assert x != s.current ==> LockFits(s, x) && JoinFits(s, x);
    }
  }

  /** Facts about the thread that is running the program's code. */
  lemma RunningThread(s: Sched)
    requires Quiet(s) && OneRuns(s) && Th(s, s.current).at == Active
    ensures var t := s.current; var me := Th(s, t);
            && t in s.threads && me == s.threads[t] && me.state == Running
            && !me.onSleepQ && !me.timedOut
            && t !in s.runq && t !in s.ioq && t !in s.zombieq
            && (forall c :: t !in QueueOf(s.condq, c)) && (forall m :: t !in QueueOf(s.lockq, m))
  {
    assert StateFits(s.threads[s.current]) && FlagsFit(s.threads[s.current]);
  }

  /** The sleep queue after the end of a blocking call's first half, from the state s1 before it. */
  lemma AddSleepQIfEffect(s: Sched, s1: Sched, t: Tid, timeout: Option<nat>)
    requires SleepOk(s) && s1.sleepq == s.sleepq && t in s1.threads
    requires forall x :: Th(s1, x).onSleepQ == Th(s, x).onSleepQ && (Th(s, x).onSleepQ ==> Th(s1, x).due == Th(s, x).due)
    requires !Th(s, t).onSleepQ
    ensures var s' := AddSleepQIf(s1, t, timeout);
            && SleepOk(s')
            && s' == s1.(threads := s1.threads[t := Th(s1, t).(due := Th(s', t).due, onSleepQ := timeout.Some?)],
                         sleepq := s'.sleepq)
  {
    SleepFrame(s, s1);
    match timeout
    case None => assert s1.threads == s1.threads[t := Th(s1, t)];
    case Some(n) => AddSleepQEffect(s1, t, n);
  }

  /** Adding a sleeper changes only its own record, and not its state. */
  lemma AddSleepQIfFacts(s: Sched, t: Tid, timeout: Option<nat>)
    requires t in s.threads
    ensures var s' := AddSleepQIf(s, t, timeout);
            && s' == s.(threads := s.threads[t := Th(s', t)], sleepq := s'.sleepq)
            && Th(s', t) == Th(s, t).(due := Th(s', t).due, onSleepQ := Th(s', t).onSleepQ)
  {
    match timeout
    case None => assert s.threads == s.threads[t := Th(s, t)];
    case Some(_) =>
  }

  lemma USleepQueues(s: Sched, s': Sched, th: Thread)
    requires QueuesOk(s) && Th(s, s.current).at == Active && Th(s, s.current).state == Running
    requires s' == s.(threads := s.threads[s.current := th], sleepq := s'.sleepq)
    requires th.at == InSleep && th.state in {Sleeping, Suspended}
    ensures RunOk(s') && ZombieOk(s') && IoOk(s') && CondOk(s') && LockOk(s')
  {
  }

  lemma USleepKeeps(s: Sched, timeout: Option<nat>)
    requires Inv(s) && UserRuns(s)
    ensures Inv(USleep(s, timeout).0)
  {
    RunningThread(s);
    if Th(s, s.current).interrupt {
      SetInterruptKeeps(s, s.current, false);
    } else {
      var s1 := Park(s, if timeout.Some? then Sleeping else Suspended, InSleep);
      USleepParks(s, s1, timeout);
      ScheduleKeeps(AddSleepQIf(s1, s.current, timeout));
    }
  }

  /** The caller of `st_usleep`, right before the context switch. */
  lemma USleepParks(s: Sched, s1: Sched, timeout: Option<nat>)
    requires Inv(s) && UserRuns(s) && !Th(s, s.current).interrupt
    requires s1 == Park(s, if timeout.Some? then Sleeping else Suspended, InSleep)
    ensures var s' := AddSleepQIf(s1, s.current, timeout); Quiet(s') && NobodyRuns(s')
  {
    RunningThread(s);
    WaitSleeps(s, s1, timeout);
    USleepParked(s, AddSleepQIf(s1, s.current, timeout), Th(AddSleepQIf(s1, s.current, timeout), s.current));
  }

  lemma USleepParked(s: Sched, s': Sched, th: Thread)
    requires Inv(s) && UserRuns(s) && SleepOk(s')
    requires th.at == InSleep && !th.interrupt && !th.timedOut && (th.state == Suspended || (th.state == Sleeping && th.onSleepQ))
    requires th.onSleepQ ==> th.state == Sleeping
    requires s' == s.(threads := s.threads[s.current := th], sleepq := s'.sleepq)
    ensures Quiet(s') && NobodyRuns(s')
  {
    RunningThread(s);
    CountedFrame(s, s');
    USleepQueues(s, s', th);
    ParkedIsQuiet(s, s', th);
  }

  lemma CondAppended(s: Sched, s': Sched, th: Thread, c: CondId)
    requires QueuesOk(s) && Th(s, s.current).at == Active && Th(s, s.current).state == Running
    requires s' == s.(threads := s.threads[s.current := th], sleepq := s'.sleepq,
                      condq := s.condq[c := QueueOf(s.condq, c) + [s.current]])
    requires (th.at == InCond(c) && c.User?) || (th.at.InJoin? && c == Term(th.at.target) && QueueOf(s.condq, c) == [])
    requires th.state == CondWait
    ensures RunOk(s') && ZombieOk(s') && IoOk(s') && CondOk(s') && LockOk(s')
  {
    DistinctAppend(QueueOf(s.condq, c), s.current);
    forall c'
      ensures QueueOf(s'.condq, c') == if c' == c then QueueOf(s.condq, c) + [s.current] else QueueOf(s.condq, c')
    {
    }
  }

  /** `st_cond_timedwait` up to the context switch, for the program and for `st_thread_join`. */
  lemma WaitKeeps(s: Sched, c: CondId, timeout: Option<nat>, at: Resume)
    requires Inv(s) && UserRuns(s)
    requires (at == InCond(c) && c.User?)
             || (at.InJoin? && c == Term(at.target) && QueueOf(s.condq, c) == [] && timeout == None
                 && at.target < s.nextTid && at.target != s.current && Th(s, at.target).state != Zombie)
    ensures Inv(Wait(s, c, timeout, at).0)
  {
    RunningThread(s);
    if Th(s, s.current).interrupt {
      SetInterruptKeeps(s, s.current, false);
    } else {
      var s1 := Park(s, CondWait, at);
      var s2 := s1.(condq := s1.condq[c := CondQ(s1, c) + [s.current]]);
      WaitParks(s, s2, c, timeout, at);
      ScheduleKeeps(AddSleepQIf(s2, s.current, timeout));
    }
  }

  /** The caller of `st_cond_timedwait`, right before the context switch. */
  lemma WaitParks(s: Sched, s2: Sched, c: CondId, timeout: Option<nat>, at: Resume)
    requires Quiet(s) && OneRuns(s) && UserRuns(s) && !Th(s, s.current).interrupt
    requires (at == InCond(c) && c.User?)
             || (at.InJoin? && c == Term(at.target) && QueueOf(s.condq, c) == [] && timeout == None
                 && at.target < s.nextTid && at.target != s.current && Th(s, at.target).state != Zombie)
    requires var s1 := Park(s, CondWait, at); s2 == s1.(condq := s1.condq[c := CondQ(s1, c) + [s.current]])
    ensures var s' := AddSleepQIf(s2, s.current, timeout); Quiet(s') && NobodyRuns(s')
  {
    RunningThread(s);
    WaitSleeps(s, s2, timeout);
    WaitBlocked(s, AddSleepQIf(s2, s.current, timeout), Th(AddSleepQIf(s2, s.current, timeout), s.current), c);
  }

  /** The blocked caller goes to sleep, if it has a time-out. */
  lemma WaitSleeps(s: Sched, s2: Sched, timeout: Option<nat>)
    requires SleepOk(s) && s.current in s.threads && !Th(s, s.current).onSleepQ
    requires s2.threads == s.threads[s.current := Th(s2, s.current)] && s2.sleepq == s.sleepq && !Th(s2, s.current).onSleepQ
    ensures var s' := AddSleepQIf(s2, s.current, timeout);
            && SleepOk(s')
            && s' == s2.(threads := s.threads[s.current := Th(s', s.current)], sleepq := s'.sleepq)
            && Th(s', s.current) == Th(s2, s.current).(due := Th(s', s.current).due, onSleepQ := timeout.Some?)
  {
    AddSleepQIfEffect(s, s2, s.current, timeout);
  }

  lemma WaitBlocked(s: Sched, s': Sched, th: Thread, c: CondId)
    requires Quiet(s) && OneRuns(s) && UserRuns(s) && SleepOk(s')
    requires th.state == CondWait && !th.interrupt && !th.timedOut && (th.onSleepQ ==> !th.at.InJoin?)
    requires (th.at == InCond(c) && c.User?)
             || (th.at.InJoin? && c == Term(th.at.target) && QueueOf(s.condq, c) == []
                 && th.at.target < s.nextTid && th.at.target != s.current && Th(s, th.at.target).state != Zombie)
    requires s' == s.(threads := s.threads[s.current := th], sleepq := s'.sleepq,
                      condq := s.condq[c := QueueOf(s.condq, c) + [s.current]])
    ensures Quiet(s') && NobodyRuns(s')
  {
    RunningThread(s);
    CountedFrame(s, s');
    CondAppended(s, s', th, c);
    ParkedIsQuiet(s, s', th);
  }

  lemma LockAppended(s: Sched, s': Sched, th: Thread, m: nat)
    requires QueuesOk(s) && Th(s, s.current).at == Active && Th(s, s.current).state == Running
    requires s' == s.(threads := s.threads[s.current := th],
                      lockq := s.lockq[m := QueueOf(s.lockq, m) + [s.current]])
    requires th.at == InLock(m) && th.state == LockWait
    ensures RunOk(s') && ZombieOk(s') && IoOk(s') && CondOk(s') && LockOk(s')
  {
    DistinctAppend(QueueOf(s.lockq, m), s.current);
    forall m'
      ensures QueueOf(s'.lockq, m') == if m' == m then QueueOf(s.lockq, m) + [s.current] else QueueOf(s.lockq, m')
    {
    }
  }

  lemma LockKeeps(s: Sched, m: nat)
    requires Inv(s) && UserRuns(s)
    ensures Inv(Lock(s, m).0)
  {
    if Th(s, s.current).interrupt {
      RunningThread(s);
      SetInterruptKeeps(s, s.current, false);
    } else if m !in s.owner {
      TakeMutexKeeps(s, m);
    } else if s.owner[m] != s.current {
      var s1 := Park(s, LockWait, InLock(m));
      var s2 := s1.(lockq := s1.lockq[m := LockQ(s1, m) + [s.current]]);
      LockParks(s, s2, m);
      ScheduleKeeps(s2);
    }
  }

  /** The caller of `st_mutex_lock`, right before the context switch. */
  lemma LockParks(s: Sched, s2: Sched, m: nat)
    requires Quiet(s) && OneRuns(s) && UserRuns(s) && !Th(s, s.current).interrupt && m in s.owner && s.owner[m] != s.current
    requires var s1 := Park(s, LockWait, InLock(m)); s2 == s1.(lockq := s1.lockq[m := LockQ(s1, m) + [s.current]])
    ensures Quiet(s2) && NobodyRuns(s2)
  {
    RunningThread(s);
    LockParked(s, s2, Th(s, s.current).(state := LockWait, at := InLock(m)), m);
  }

  lemma LockParked(s: Sched, s2: Sched, th: Thread, m: nat)
    requires Quiet(s) && OneRuns(s) && UserRuns(s) && m in s.owner && s.owner[m] != s.current
    requires th.state == LockWait && th.at == InLock(m) && !th.interrupt && !th.timedOut && !th.onSleepQ
    requires s2 == s.(threads := s.threads[s.current := th], lockq := s.lockq[m := QueueOf(s.lockq, m) + [s.current]])
    ensures Quiet(s2) && NobodyRuns(s2)
  {
    RunningThread(s);
    LockParkedQueues(s, s2, th, m);
    ParkedIsQuiet(s, s2, th);
  }

  lemma LockParkedQueues(s: Sched, s2: Sched, th: Thread, m: nat)
    requires QueuesOk(s) && EpollOk(s) && s.current in s.threads && s.current !in s.ioq
    requires Th(s, s.current).at == Active && Th(s, s.current).state == Running && !Th(s, s.current).onSleepQ
    requires th.state == LockWait && th.at == InLock(m) && !th.onSleepQ
    requires s2 == s.(threads := s.threads[s.current := th], lockq := s.lockq[m := QueueOf(s.lockq, m) + [s.current]])
    ensures QueuesOk(s2) && EpollOk(s2)
  {
    CountedFrame(s, s2);
    SleepFrame(s, s2);
    LockAppended(s, s2, th, m);
  }

  /** A free mutex is taken: nobody can be waiting for it. */
  lemma TakeMutexKeeps(s: Sched, m: nat)
    requires Inv(s) && UserRuns(s) && m !in s.owner
    ensures Inv(s.(owner := s.owner[m := s.current]))
  {
    var s' := s.(owner := s.owner[m := s.current]);
    TakeMutexFits(s, s', m);
    OwnerIsIrrelevant(s, s');
  }

  lemma TakeMutexFits(s: Sched, s': Sched, m: nat)
    requires LocksFit(s) && JoinsFit(s) && m !in s.owner && s.current in s.threads && Th(s, s.current).at == Active
    requires s'.owner == s.owner[m := s.current] && s'.threads == s.threads && s'.nextTid == s.nextTid
    ensures LocksFit(s') && JoinsFit(s')
  {
    forall t | t in s'.threads
      ensures LockFits(s', t) && JoinFits(s', t)
    {
      assert LockFits(s, t) && JoinFits(s, t);
    }
  }

  /** The rest of the invariant does not speak of the owners of mutexes. */
  lemma OwnerIsIrrelevant(s: Sched, s': Sched)
    requires Inv(s) && s' == s.(owner := s'.owner) && LocksFit(s') && JoinsFit(s')
    ensures Inv(s')
  {
    QueuesFrame(s, s');
    CountedFrame(s, s');
    assert ActiveSet(s') == ActiveSet(s);
  }

  lemma TryLockKeeps(s: Sched, m: nat)
    requires Inv(s) && UserRuns(s)
    ensures Inv(TryLock(s, m).0)
  {
    if m !in s.owner {
      TakeMutexKeeps(s, m);
    }
  }

  /** A mutex with no LOCK_WAIT thread in its queue is freed; otherwise the first such thread owns it. */
  lemma UnlockKeeps(s: Sched, m: nat)
    requires Inv(s) && UserRuns(s)
    ensures Inv(Unlock(s, m).0)
  {
    if m in s.owner && s.owner[m] == s.current {
      UnlockFits(s, m);
      if FirstWaiter(s, LockQ(s, m)) == |LockQ(s, m)| {
        FreeMutexKeeps(s, m);
      } else {
        HandOffKeeps(s, m);
      }
    }
  }

  lemma FreeMutexKeeps(s: Sched, m: nat)
    requires Inv(s) && LocksFit(s.(owner := s.owner - {m})) && JoinsFit(s.(owner := s.owner - {m}))
    ensures Inv(s.(owner := s.owner - {m}))
  {
    OwnerIsIrrelevant(s, s.(owner := s.owner - {m}));
  }

  lemma HandOffKeeps(s: Sched, m: nat)
    requires Inv(s) && UserRuns(s) && m in s.owner && s.owner[m] == s.current
    requires FirstWaiter(s, LockQ(s, m)) < |LockQ(s, m)|
    requires LocksFit(Unlock(s, m).0) && JoinsFit(Unlock(s, m).0)
    ensures Inv(Unlock(s, m).0)
  {
    var t := LockQ(s, m)[FirstWaiter(s, LockQ(s, m))];
    assert t in QueueOf(s.lockq, m);
    HandedKeeps(s, Unlock(s, m).0, t, m);
  }

  lemma HandedKeeps(s: Sched, s': Sched, t: Tid, m: nat)
    requires Inv(s) && t in QueueOf(s.lockq, m) && Th(s, t).state == LockWait
    requires s' == s.(owner := s'.owner, threads := s.threads[t := Th(s, t).(state := Runnable)], runq := s.runq + [t])
    requires LocksFit(s') && JoinsFit(s')
    requires s.current != s.idle
    ensures Inv(s')
  {
    assert FlagsFit(s.threads[t]) && StateFits(s.threads[t]);
    SleepFrame(s, s');
    WokenQuiet(s, s', t, Th(s', t));
  }

  lemma UnlockFits(s: Sched, m: nat)
    requires Inv(s) && UserRuns(s) && m in s.owner && s.owner[m] == s.current
    ensures LocksFit(Unlock(s, m).0) && JoinsFit(Unlock(s, m).0)
  {
    var q := QueueOf(s.lockq, m);
    var i := FirstWaiter(s, q);
    if i == |q| {
      FreedFits(s, s.(owner := s.owner - {m}), m, q);
    } else {
      assert q[i] in q;
      HandedFits(s, Unlock(s, m).0, m, q[i]);
    }
  }

  lemma FreedFits(s: Sched, s': Sched, m: nat, q: seq<Tid>)
    requires LocksFit(s) && JoinsFit(s) && LockOk(s) && q == QueueOf(s.lockq, m) && FirstWaiter(s, q) == |q|
    requires m in s.owner && OneRuns(s) && s.current != s.idle && Th(s, s.current).at == Active && s.owner[m] == s.current
    requires forall t :: t in s.threads ==> StateFits(s.threads[t])
    requires s'.owner == s.owner - {m} && s'.threads == s.threads && s'.nextTid == s.nextTid
    ensures LocksFit(s') && JoinsFit(s')
  {
    forall t | t in s'.threads
      ensures LockFits(s', t) && JoinFits(s', t)
    {
      assert LockFits(s, t) && JoinFits(s, t);
      if Th(s, t).at == InLock(m) {
        assert t in QueueOf(s.lockq, m);
        var j :| 0 <= j < |q| && q[j] == t;
      }
    }
  }

  lemma HandedFits(s: Sched, s': Sched, m: nat, t: Tid)
    requires LocksFit(s) && JoinsFit(s) && LockOk(s) && t in QueueOf(s.lockq, m) && Th(s, t).state == LockWait
    requires m in s.owner && s.owner[m] == s.current && Th(s, s.current).at == Active
    requires s'.owner == s.owner[m := t] && s'.threads == s.threads[t := Th(s, t).(state := Runnable)] && s'.nextTid == s.nextTid
    ensures LocksFit(s') && JoinsFit(s')
  {
    forall x | x in s'.threads
      ensures LockFits(s', x) && JoinFits(s', x)
    {
      assert LockFits(s, x) && JoinFits(s, x);
    }
  }

  // ---------------------------------------------------------------- I/O

  lemma CountsNonNegative(s: Sched)
    requires Counted(s)
    ensures NonNegative(s.ep)
  {
  }

  /** A failed `_st_epoll_pollset_add` changes nothing that counts. */
  lemma FailedPollKeeps(s: Sched, ep: EpollData)
    requires Inv(s) && Consistent(ep) && SameCounts(s.ep, ep)
    ensures Inv(s.(ep := ep))
  {
    var s' := s.(ep := ep);
    QueuesFrame(s, s');
    SameThreads(s, s');
    forall fd, k
      ensures Count(Data(ep, fd), k) == TotalRefs(s', s'.ioq, fd, k)
    {
      TotalRefsFrame(s, s', s.ioq, fd, k);
      assert Data(s.ep, fd) == Data(ep, fd);
      assert Count(Data(s.ep, fd), k) == TotalRefs(s, s.ioq, fd, k);
    }
  }

  lemma IoAppended(s: Sched, s': Sched, th: Thread)
    requires QueuesOk(s) && Th(s, s.current).at == Active && Th(s, s.current).state == Running
    requires s' == s.(threads := s.threads[s.current := th], sleepq := s'.sleepq, ep := s'.ep,
                      ioq := s.ioq + [s.current])
    requires th.at.InPoll? && th.at.onIoq && th.state == IoWait
    ensures RunOk(s') && ZombieOk(s') && IoOk(s') && CondOk(s') && LockOk(s')
  {
    DistinctAppend(s.ioq, s.current);
  }

  lemma PollCounted(s: Sched, s': Sched, pds: seq<Pollfd>)
    requires EpollOk(s) && s.current !in s.ioq
    requires s'.ioq == s.ioq + [s.current] && PdsOf(s', s.current) == pds
    requires forall t :: t in s.ioq ==> PdsOf(s', t) == PdsOf(s, t)
    requires Consistent(s'.ep)
    requires forall fd, k :: Count(Data(s'.ep, fd), k) == Count(Data(s.ep, fd), k) + Refs(pds, fd, k)
    ensures EpollOk(s')
  {
    forall fd, k
      ensures Count(Data(s'.ep, fd), k) == TotalRefs(s', s'.ioq, fd, k)
    {
      TotalRefsFrame(s, s', s.ioq, fd, k);
      assert s'.ioq[..|s'.ioq| - 1] == s.ioq;
      assert Count(Data(s.ep, fd), k) == TotalRefs(s, s.ioq, fd, k);
    }
  }

  lemma PollKeeps(s: Sched, pds: seq<Pollfd>, timeout: Option<nat>, refused: set<int>)
    requires Inv(s) && UserRuns(s)
    ensures Inv(Poll(s, pds, timeout, refused).0)
  {
    RunningThread(s);
    if Th(s, s.current).interrupt {
      SetInterruptKeeps(s, s.current, false);
    } else {
      CountsNonNegative(s);
      PollsetAddConsistent(s.ep, pds, refused);
      PollsetAddCounts(s.ep, pds, refused);
      var (ep, r) := AddPollset(s.ep, pds, refused);
      if r != Added {
        FailedPollKeeps(s, ep);
      } else {
        var s1 := Park(s, IoWait, InPoll(pds, true)).(ep := ep, ioq := s.ioq + [s.current]);
        PollParks(s, s1, pds, timeout, ep);
        ScheduleKeeps(AddSleepQIf(s1, s.current, timeout));
      }
    }
  }

  /** The caller of `st_poll`, right before the context switch. */
  lemma PollParks(s: Sched, s1: Sched, pds: seq<Pollfd>, timeout: Option<nat>, ep: EpollData)
    requires Quiet(s) && OneRuns(s) && UserRuns(s) && !Th(s, s.current).interrupt && Consistent(ep)
    requires forall fd, k :: Count(Data(ep, fd), k) == Count(Data(s.ep, fd), k) + Refs(pds, fd, k)
    requires s1 == Park(s, IoWait, InPoll(pds, true)).(ep := ep, ioq := s.ioq + [s.current])
    ensures var s' := AddSleepQIf(s1, s.current, timeout); Quiet(s') && NobodyRuns(s')
  {
    RunningThread(s);
    WaitSleeps(s, s1, timeout);
    PollBlocked(s, AddSleepQIf(s1, s.current, timeout), Th(AddSleepQIf(s1, s.current, timeout), s.current), pds);
  }

  lemma PollBlocked(s: Sched, s': Sched, th: Thread, pds: seq<Pollfd>)
    requires Quiet(s) && OneRuns(s) && UserRuns(s) && SleepOk(s') && Consistent(s'.ep)
    requires th.state == IoWait && th.at == InPoll(pds, true) && !th.interrupt && !th.timedOut
    requires s' == s.(threads := s.threads[s.current := th], sleepq := s'.sleepq, ep := s'.ep, ioq := s.ioq + [s.current])
    requires forall fd, k :: Count(Data(s'.ep, fd), k) == Count(Data(s.ep, fd), k) + Refs(pds, fd, k)
    ensures Quiet(s') && NobodyRuns(s')
  {
    RunningThread(s);
    PollCounted(s, s', pds);
    IoAppended(s, s', th);
    ParkedIsQuiet(s, s', th);
  }

  // ---------------------------------------------------------------- dispatch

  lemma {:induction false} TotalRefsFirst(s: Sched, x: Tid, q: seq<Tid>, fd: int, k: Kind)
    ensures TotalRefs(s, [x] + q, fd, k) == Refs(PdsOf(s, x), fd, k) + TotalRefs(s, q, fd, k)
  {
    if q == [] {
      assert [x] + q == [x] && [x][..0] == [];
    } else {
      var n := |q| - 1;
      assert ([x] + q)[..n + 1] == [x] + q[..n];
      TotalRefsFirst(s, x, q[..n], fd, k);
    }
  }

  lemma {:induction false} TotalRefsWithout(s: Sched, q: seq<Tid>, t: Tid, fd: int, k: Kind)
    requires t in q
    ensures TotalRefs(s, q, fd, k) == TotalRefs(s, Without(q, t), fd, k) + Refs(PdsOf(s, t), fd, k)
  {
    assert q == [q[0]] + q[1..];
    TotalRefsFirst(s, q[0], q[1..], fd, k);
    if q[0] != t {
      TotalRefsWithout(s, q[1..], t, fd, k);
      TotalRefsFirst(s, q[0], Without(q[1..], t), fd, k);
    }
  }

  lemma {:induction false} RefsIgnoreRevents(pds: seq<Pollfd>, pds': seq<Pollfd>, fd: int, k: Kind)
    requires SameEntries(pds, pds')
    ensures Refs(pds', fd, k) == Refs(pds, fd, k)
  {
    if pds != [] {
      RefsIgnoreRevents(pds[..|pds| - 1], pds'[..|pds| - 1], fd, k);
    }
  }

  /** The counts and registrations while dispatch is under way; the descriptors in `off` have fired. */
  ghost predicate DispatchEpoll(s: Sched, off: set<int>) {
    ConsistentBut(s.ep, off) && off <= s.ep.interest.Keys && Counted(s)
  }

  /** The poll entries in pds are those of t, up to their revents. */
  ghost predicate SameEntries(pds: seq<Pollfd>, pds': seq<Pollfd>) {
    && |pds| == |pds'|
    && forall i :: 0 <= i < |pds| ==> pds'[i].fd == pds[i].fd && pds'[i].events == pds[i].events
  }

  lemma LeaveIoqRefs(s: Sched, s': Sched, t: Tid, pds: seq<Pollfd>, fd: int, k: Kind)
    requires t in s.ioq && Distinct(s.ioq) && SameEntries(PdsOf(s, t), pds)
    requires s'.ioq == Without(s.ioq, t)
    requires forall x :: x in s.ioq && x != t ==> PdsOf(s', x) == PdsOf(s, x)
    ensures TotalRefs(s, s.ioq, fd, k) == TotalRefs(s', s'.ioq, fd, k) + Refs(pds, fd, k)
  {
    WithoutEffect(s.ioq, t);
    TotalRefsWithout(s, s.ioq, t, fd, k);
    RefsIgnoreRevents(PdsOf(s, t), pds, fd, k);
    TotalRefsFrame(s, s', s'.ioq, fd, k);
  }

  /** Leaving the io queue takes exactly the entries of the pollq off the counts. */
  lemma LeaveIoq(s: Sched, s': Sched, t: Tid, pds: seq<Pollfd>, off: set<int>)
    requires DispatchEpoll(s, off) && t in s.ioq && Distinct(s.ioq) && SameEntries(PdsOf(s, t), pds)
    requires s'.ioq == Without(s.ioq, t) && s'.ep == DelAll(s.ep, pds)
    requires forall x :: x in s.ioq && x != t ==> PdsOf(s', x) == PdsOf(s, x)
    ensures DispatchEpoll(s', off)
    ensures forall fd :: Data(s'.ep, fd).revents == Data(s.ep, fd).revents
  {
    DelAllCounts(s.ep, pds);
    forall fd, k
      ensures Count(Data(s.ep, fd), k) >= Refs(pds, fd, k)
      ensures Count(Data(s'.ep, fd), k) == TotalRefs(s', s'.ioq, fd, k)
    {
      assert Count(Data(s.ep, fd), k) == TotalRefs(s, s.ioq, fd, k);
      LeaveIoqRefs(s, s', t, pds, fd, k);
    }
    DelAllConsistent(s.ep, pds, off);
    forall fd | fd in off
      ensures fd in s'.ep.interest
    {
      assert fd in s.ep.interest.Keys;
    }
  }

  /** The parts of the invariant that do not speak of the event system. */
  ghost predicate Settled(s: Sched) {
    Core(s) && LocksFit(s) && JoinsFit(s) && OneRuns(s)
  }

  /** A pollq without events stays where it is. */
  lemma NotNotified(s: Sched, t: Tid, off: set<int>)
    requires Settled(s) && DispatchEpoll(s, off)
    requires t in s.ioq && Th(s, t).state == IoWait
    requires ReadyCount(WithRevents(s.ep, PdsOf(s, t))) == 0
    ensures Settled(DispatchOne(s, t)) && DispatchEpoll(DispatchOne(s, t), off)
  {
    var pds := WithRevents(s.ep, PdsOf(s, t));
    NotNotifiedSettled(s, t, pds);
    NotNotifiedCounted(s, DispatchOne(s, t), t, pds);
  }

  lemma NotNotifiedSettled(s: Sched, t: Tid, pds: seq<Pollfd>)
    requires Settled(s) && t in s.ioq && Th(s, t).state == IoWait
    ensures Settled(SetTh(s, t, Th(s, t).(at := InPoll(pds, true))))
  {
    NotNotifiedQueues(s, t, pds);
    NotNotifiedThreads(s, t, pds);
    OneRecordFits(s, SetTh(s, t, Th(s, t).(at := InPoll(pds, true))), t);
  }

  lemma NotNotifiedCounted(s: Sched, s': Sched, t: Tid, pds: seq<Pollfd>)
    requires Counted(s) && t in s.threads && SameEntries(PdsOf(s, t), pds)
    requires s' == SetTh(s, t, Th(s, t).(at := InPoll(pds, true)))
    ensures Counted(s')
  {
    forall fd, k
      ensures Count(Data(s'.ep, fd), k) == TotalRefs(s', s'.ioq, fd, k)
    {
      assert Count(Data(s.ep, fd), k) == TotalRefs(s, s.ioq, fd, k);
      TotalRefsSame(s, s', s.ioq, fd, k);
    }
  }

  lemma NotNotifiedThreads(s: Sched, t: Tid, pds: seq<Pollfd>)
    requires ThreadsOk(s) && t in s.threads && t != s.idle && Th(s, t).at.InPoll?
    ensures var s' := SetTh(s, t, Th(s, t).(at := InPoll(pds, true))); ThreadsOk(s') && ActiveSet(s') == ActiveSet(s)
  {
    assert StateFits(s.threads[t]) && FlagsFit(s.threads[t]);
  }

  lemma NotNotifiedQueues(s: Sched, t: Tid, pds: seq<Pollfd>)
    requires QueuesOk(s) && t in s.ioq && t in s.threads
    ensures QueuesOk(SetTh(s, t, Th(s, t).(at := InPoll(pds, true))))
  {
    var s' := SetTh(s, t, Th(s, t).(at := InPoll(pds, true)));
    SleepFrame(s, s');
  }

  lemma {:induction false} TotalRefsSame(s: Sched, s': Sched, q: seq<Tid>, fd: int, k: Kind)
    requires forall t :: SameEntries(PdsOf(s, t), PdsOf(s', t))
    ensures TotalRefs(s', q, fd, k) == TotalRefs(s, q, fd, k)
  {
    if q != [] {
      TotalRefsSame(s, s', q[..|q| - 1], fd, k);
      RefsIgnoreRevents(PdsOf(s, q[|q| - 1]), PdsOf(s', q[|q| - 1]), fd, k);
    }
  }

  /** Changing the record of a thread that polls affects no lock and no join. */
  lemma OneRecordFits(s: Sched, s': Sched, t: Tid)
    requires LocksFit(s) && JoinsFit(s)
    requires t in s.threads && Th(s, t).at.InPoll? && Th(s, t).state != Zombie
    requires s'.threads == s.threads[t := Th(s', t)] && s'.owner == s.owner && s'.nextTid == s.nextTid
    requires !Th(s', t).at.InLock? && !Th(s', t).at.InJoin? && !Th(s', t).at.InExit? && Th(s', t).state != Zombie
    ensures LocksFit(s') && JoinsFit(s')
  {
    forall x | x in s'.threads
      ensures LockFits(s', x) && JoinFits(s', x)
    {
      assert LockFits(s, x) && JoinFits(s, x);
    }
  }

  lemma NotifiedQueues(s: Sched, s': Sched, t: Tid, pds: seq<Pollfd>)
    requires QueuesOk(s) && t in s.ioq && Th(s, t).state == IoWait && t != s.idle
    requires s' == s.(threads := s.threads[t := Th(s, t).(at := InPoll(pds, false), state := Runnable, onSleepQ := false)],
                      sleepq := s'.sleepq, runq := s.runq + [t], ioq := Without(s.ioq, t), ep := s'.ep)
    ensures RunOk(s') && ZombieOk(s') && IoOk(s') && CondOk(s') && LockOk(s')
  {
    WithoutEffect(s.ioq, t);
    DistinctAppend(s.runq, t);
  }

  lemma NotifiedThreads(s: Sched, s': Sched, t: Tid, th: Thread)
    requires ThreadsOk(s) && t in s.threads && t != s.idle && Th(s, t).at.InPoll?
    requires th.at.InPoll? && IsReady(th.state) && !th.onSleepQ && !th.timedOut
    requires s'.threads == s.threads[t := th] && s'.idle == s.idle && s'.nextTid == s.nextTid
    ensures ThreadsOk(s') && ActiveSet(s') == ActiveSet(s)
  {
  }

  lemma NotifiedEffect(s: Sched, t: Tid)
    requires SleepOk(s) && t in s.threads
    requires ReadyCount(WithRevents(s.ep, PdsOf(s, t))) > 0
    ensures var s' := DispatchOne(s, t); var pds := WithRevents(s.ep, PdsOf(s, t));
            && SleepOk(s')
            && s' == s.(threads := s.threads[t := Th(s, t).(at := InPoll(pds, false), state := Runnable, onSleepQ := false)],
                        sleepq := s'.sleepq, runq := s.runq + [t], ioq := Without(s.ioq, t), ep := DelAll(s.ep, pds))
  {
    var pds := WithRevents(s.ep, PdsOf(s, t));
    var s1 := SetTh(s, t, Th(s, t).(at := InPoll(pds, false))).(ioq := Without(s.ioq, t), ep := DelAll(s.ep, pds));
    NotifiedWakes(s, t, pds);
    NotifiedFrom(s, s1, MakeRunnable(s1, t), t, pds);
  }

  lemma NotifiedFrom(s: Sched, s1: Sched, s': Sched, t: Tid, pds: seq<Pollfd>)
    requires SleepOk(s) && t in s.threads && s' == MakeRunnable(s1, t)
    requires s1 == s.(threads := s.threads[t := Th(s, t).(at := InPoll(pds, false))], ioq := s1.ioq, ep := s1.ep)
    ensures SleepOk(s')
    ensures s' == s1.(threads := s.threads[t := Th(s, t).(at := InPoll(pds, false), state := Runnable, onSleepQ := false)],
                      sleepq := s'.sleepq, runq := s.runq + [t])
  {
    SleepFrame(s, s1);
    MakeRunnableEffect(s1, t);
    UpdateTwice(s.threads, t, Th(s1, t), Th(s, t).(at := InPoll(pds, false), state := Runnable, onSleepQ := false));
  }

  lemma NotifiedWakes(s: Sched, t: Tid, pds: seq<Pollfd>)
    requires pds == WithRevents(s.ep, PdsOf(s, t)) && ReadyCount(pds) > 0
    ensures DispatchOne(s, t) ==
            MakeRunnable(SetTh(s, t, Th(s, t).(at := InPoll(pds, false))).(ioq := Without(s.ioq, t), ep := DelAll(s.ep, pds)), t)
  {
  }

  lemma UpdateTwice<K, V>(m: map<K, V>, k: K, v: V, w: V)
    ensures m[k := v][k := w] == m[k := w]
  {
  }

  /** A pollq with events leaves the io queue and its thread becomes runnable. */
  lemma Notified(s: Sched, t: Tid, off: set<int>)
    requires Settled(s) && DispatchEpoll(s, off)
    requires t in s.ioq && Th(s, t).state == IoWait
    requires ReadyCount(WithRevents(s.ep, PdsOf(s, t))) > 0
    ensures Settled(DispatchOne(s, t)) && DispatchEpoll(DispatchOne(s, t), off)
    ensures forall fd :: Data(DispatchOne(s, t).ep, fd).revents == Data(s.ep, fd).revents
  {
    NotifiedEffect(s, t);
    NotifiedKeeps(s, DispatchOne(s, t), t, WithRevents(s.ep, PdsOf(s, t)), off);
  }

  lemma NotifiedKeeps(s: Sched, s': Sched, t: Tid, pds: seq<Pollfd>, off: set<int>)
    requires Settled(s) && DispatchEpoll(s, off) && SleepOk(s')
    requires t in s.ioq && Th(s, t).state == IoWait && SameEntries(PdsOf(s, t), pds)
    requires s' == s.(threads := s.threads[t := Th(s, t).(at := InPoll(pds, false), state := Runnable, onSleepQ := false)],
                      sleepq := s'.sleepq, runq := s.runq + [t], ioq := Without(s.ioq, t), ep := DelAll(s.ep, pds))
    ensures Settled(s') && DispatchEpoll(s', off)
    ensures forall fd :: Data(s'.ep, fd).revents == Data(s.ep, fd).revents
  {
    NotifiedSettled(s, s', t, pds);
    LeaveIoq(s, s', t, pds, off);
  }

  lemma NotifiedSettled(s: Sched, s': Sched, t: Tid, pds: seq<Pollfd>)
    requires Settled(s) && t in s.ioq && Th(s, t).state == IoWait && SleepOk(s')
    requires s' == s.(threads := s.threads[t := Th(s, t).(at := InPoll(pds, false), state := Runnable, onSleepQ := false)],
                      sleepq := s'.sleepq, runq := s.runq + [t], ioq := Without(s.ioq, t), ep := s'.ep)
    ensures Settled(s')
  {
    assert StateFits(s.threads[t]) && FlagsFit(s.threads[t]);
    NotifiedQueues(s, s', t, pds);
    NotifiedThreads(s, s', t, Th(s', t));
    OneRecordFits(s, s', t);
  }

  /** A pollq is to be notified when some of its descriptors fired with an event it asks for. */
  predicate ToNotify(s: Sched, t: Tid) {
    ReadyCount(WithRevents(s.ep, PdsOf(s, t))) > 0
  }

  /** The threads of q to be notified, in order. */
  function Selected(s: Sched, q: seq<Tid>): seq<Tid> {
    if q == [] then []
    else Selected(s, q[..|q| - 1]) + (if ToNotify(s, q[|q| - 1]) then [q[|q| - 1]] else [])
  }

  /**
    The threads of q, a front part of the io queue, have been visited: those to be notified are
    runnable and off the io queue, the others wait as before; nothing else has changed.
   */
  ghost predicate Visited(s0: Sched, s: Sched, q: seq<Tid>, rest: seq<Tid>) {
    && s.current == s0.current && s.idle == s0.idle
    && VisitedRecords(s0, s, q) && VisitedIoq(s0, s.ioq, q, rest)
    && s.runq == s0.runq + Selected(s0, q)
    && SameFired(s0.ep, s.ep)
  }

  ghost predicate VisitedRecords(s0: Sched, s: Sched, q: seq<Tid>) {
    && (forall t :: t !in q ==> Th(s, t) == Th(s0, t))
    && (forall t :: t in q ==> (Th(s, t).state == Runnable <==> ToNotify(s0, t)))
  }

  ghost predicate VisitedIoq(s0: Sched, ioq: seq<Tid>, q: seq<Tid>, rest: seq<Tid>) {
    forall t :: t in ioq <==> t in rest || (t in q && !ToNotify(s0, t))
  }

  ghost predicate SameFired(e: EpollData, e': EpollData) {
    forall fd :: Data(e', fd).revents == Data(e, fd).revents
  }

  lemma SameRevents(e: EpollData, e': EpollData, pds: seq<Pollfd>)
    requires forall fd :: Data(e', fd).revents == Data(e, fd).revents
    ensures WithRevents(e', pds) == WithRevents(e, pds)
  {
    assert forall i :: 0 <= i < |pds| ==> RevOf(e', pds[i]) == RevOf(e, pds[i]);
  }

  lemma SplitLast(ioq: seq<Tid>, q: seq<Tid>, rest: seq<Tid>)
    requires Distinct(ioq) && ioq == q + rest && q != []
    ensures var n := |q| - 1; var t := q[n];
            && ioq == q[..n] + ([t] + rest) && q == q[..n] + [t]
            && t in ioq && t !in q[..n] && t !in rest
  {
    var n := |q| - 1;
    assert ioq[n] == q[n];
    assert forall i :: 0 <= i < n ==> q[..n][i] == ioq[i];
    assert forall i :: 0 <= i < |rest| ==> rest[i] == ioq[n + 1 + i];
  }

  lemma VisitNone(s: Sched, off: set<int>)
    requires Settled(s) && forall t :: t in s.ioq ==> Th(s, t).state == IoWait
    ensures Visited(s, s, [], s.ioq)
  {
  }

  lemma {:induction false} DispatchAllKeeps(s: Sched, q: seq<Tid>, rest: seq<Tid>, off: set<int>)
    requires Settled(s) && DispatchEpoll(s, off)
    requires s.ioq == q + rest && forall t :: t in s.ioq ==> Th(s, t).state == IoWait
    ensures var s' := DispatchAll(s, q);
            Settled(s') && DispatchEpoll(s', off) && Visited(s, s', q, rest)
  {
    if q == [] {
      VisitNone(s, off);
    } else {
      SplitLast(s.ioq, q, rest);
      var t := q[|q| - 1];
      var front := q[..|q| - 1];
      DispatchAllKeeps(s, front, [t] + rest, off);
      var s1 := DispatchAll(s, front);
      SameRevents(s.ep, s1.ep, PdsOf(s, t));
      VisitOne(s, s1, front, t, rest, off);
    }
  }

  lemma VisitOne(s: Sched, s1: Sched, q: seq<Tid>, t: Tid, rest: seq<Tid>, off: set<int>)
    requires Settled(s1) && DispatchEpoll(s1, off) && Visited(s, s1, q, [t] + rest)
    requires t !in q && t !in rest && Th(s, t).state == IoWait
    requires WithRevents(s1.ep, PdsOf(s, t)) == WithRevents(s.ep, PdsOf(s, t))
    ensures var s' := DispatchOne(s1, t);
            Settled(s') && DispatchEpoll(s', off) && Visited(s, s', q + [t], rest)
  {
    assert t in [t] + rest;
    assert t in s1.ioq && PdsOf(s1, t) == PdsOf(s, t);
    if ToNotify(s, t) {
      Notified(s1, t, off);
      NotifiedVisited(s, s1, q, t, rest);
    } else {
      NotNotified(s1, t, off);
      NotNotifiedVisited(s, s1, q, t, rest);
    }
  }

  lemma NotNotifiedVisited(s: Sched, s1: Sched, q: seq<Tid>, t: Tid, rest: seq<Tid>)
    requires Visited(s, s1, q, [t] + rest) && !ToNotify(s, t) && !ToNotify(s1, t)
    requires t !in q && t !in rest && Th(s1, t).state != Runnable
    ensures Visited(s, DispatchOne(s1, t), q + [t], rest)
  {
    VisitedMore(s, s1, DispatchOne(s1, t), q, t, rest);
  }

  lemma NotifiedVisited(s: Sched, s1: Sched, q: seq<Tid>, t: Tid, rest: seq<Tid>)
    requires Visited(s, s1, q, [t] + rest) && ToNotify(s, t)
    requires t !in q && t !in rest
    requires Distinct(s1.ioq) && SleepOk(s1) && t in s1.threads && ToNotify(s1, t)
    requires SameFired(s1.ep, DispatchOne(s1, t).ep)
    ensures Visited(s, DispatchOne(s1, t), q + [t], rest)
  {
    NotifiedEffect(s1, t);
    WithoutEffect(s1.ioq, t);
    VisitedMore(s, s1, DispatchOne(s1, t), q, t, rest);
  }

  lemma SelectedMore(s: Sched, q: seq<Tid>, t: Tid)
    ensures Selected(s, q + [t]) == if ToNotify(s, t) then Selected(s, q) + [t] else Selected(s, q)
  {
    assert (q + [t])[..|q|] == q;
  }

  lemma VisitedMore(s: Sched, s1: Sched, s': Sched, q: seq<Tid>, t: Tid, rest: seq<Tid>)
    requires Visited(s, s1, q, [t] + rest)
    requires t !in q && t !in rest
    requires forall x :: x in s'.ioq <==> x in s1.ioq && (x != t || !ToNotify(s, t))
    requires s'.runq == if ToNotify(s, t) then s1.runq + [t] else s1.runq
    requires s'.current == s1.current && s'.idle == s1.idle
    requires Th(s', t).state == Runnable <==> ToNotify(s, t)
    requires forall x :: x != t ==> Th(s', x) == Th(s1, x)
    requires SameFired(s1.ep, s'.ep)
    ensures Visited(s, s', q + [t], rest)
  {
    VisitedMoreRunq(s, s1.runq, s'.runq, q, t);
    VisitedMoreIoq(s, s1.ioq, s'.ioq, q, t, rest);
    VisitedMoreRecords(s, s1, s', q, t);
    SameFiredTwice(s.ep, s1.ep, s'.ep);
  }

  lemma SameFiredTwice(e: EpollData, e1: EpollData, e2: EpollData)
    requires SameFired(e, e1) && SameFired(e1, e2)
    ensures SameFired(e, e2)
  {
  }

  lemma VisitedMoreRunq(s: Sched, runq: seq<Tid>, runq': seq<Tid>, q: seq<Tid>, t: Tid)
    requires runq == s.runq + Selected(s, q) && runq' == if ToNotify(s, t) then runq + [t] else runq
    ensures runq' == s.runq + Selected(s, q + [t])
  {
    SelectedMore(s, q, t);
    Associative(s.runq, Selected(s, q), [t]);
  }

  lemma VisitedMoreIoq(s: Sched, ioq: seq<Tid>, ioq': seq<Tid>, q: seq<Tid>, t: Tid, rest: seq<Tid>)
    requires VisitedIoq(s, ioq, q, [t] + rest) && t !in q && t !in rest
    requires forall x :: x in ioq' <==> x in ioq && (x != t || !ToNotify(s, t))
    ensures VisitedIoq(s, ioq', q + [t], rest)
  {
    forall x
      ensures x in [t] + rest <==> x == t || x in rest
      ensures x in q + [t] <==> x in q || x == t
    {
    }
  }

  lemma VisitedMoreRecords(s: Sched, s1: Sched, s': Sched, q: seq<Tid>, t: Tid)
    requires VisitedRecords(s, s1, q) && t !in q
    requires Th(s', t).state == Runnable <==> ToNotify(s, t)
    requires forall x :: x != t ==> Th(s', x) == Th(s1, x)
    ensures VisitedRecords(s, s', q + [t])
  {
  }

  /** Whenever the idle thread runs, every thread on the io queue is in IO_WAIT. */
  lemma IoqWaitsWhenIdle(s: Sched)
    requires Inv(s) && s.current == s.idle
    ensures forall t :: t in s.ioq ==> t in s.threads && Th(s, t).state == IoWait
    ensures forall t :: t in s.threads && t != s.idle ==> !IsReady(Th(s, t).state)
  {
    forall t | t in s.threads && t != s.idle
      ensures !IsReady(Th(s, t).state)
      ensures StateFits(s.threads[t])
    {
      assert t !in s.runq;
    }
  }

  lemma MarkSettled(s: Sched, ep: EpollData)
    requires Settled(s)
    ensures Settled(s.(ep := ep))
  {
    var s' := s.(ep := ep);
    QueuesFrame(s, s');
    SameThreads(s, s');
  }

  lemma CountedByEp(s: Sched, ep: EpollData)
    requires Counted(s) && forall fd, k :: Count(Data(ep, fd), k) == Count(Data(s.ep, fd), k)
    ensures Counted(s.(ep := ep))
  {
    forall fd, k
      ensures Count(Data(ep, fd), k) == TotalRefs(s.(ep := ep), s.ioq, fd, k)
    {
      assert Count(Data(s.ep, fd), k) == TotalRefs(s, s.ioq, fd, k);
      TotalRefsFrame(s, s.(ep := ep), s.ioq, fd, k);
    }
  }

  lemma DispatchKeeps(s: Sched, fired: seq<Fired>)
    requires Inv(s) && s.current == s.idle && MayFire(s.ep, fired)
    ensures var s' := Dispatch(s, fired); Quiet(s') && OneRuns(s') && s'.current == s.current && s'.idle == s.idle
  {
    if fired != [] {
      IoqWaitsWhenIdle(s);
      MarkEffect(s.ep, fired);
      var s1 := s.(ep := Mark(s.ep, fired));
      MarkSettled(s, s1.ep);
      CountedByEp(s, s1.ep);
      FiredRegistered(s.ep, fired);
      assert s1.ioq == s1.ioq + [];
      DispatchAllKeeps(s1, s1.ioq, [], FdsOf(fired));
      var s2 := DispatchAll(s1, s1.ioq);
      FinishConsistent(s2.ep, fired);
      MarkSettled(s2, Finish(s2.ep, fired));
      CountedByEp(s2, Finish(s2.ep, fired));
    }
  }

  lemma FiredRegistered(e: EpollData, fired: seq<Fired>)
    requires MayFire(e, fired)
    ensures FdsOf(fired) <= e.interest.Keys
  {
  }

  lemma {:induction false} ExpireSpares(s: Sched, now: int)
    requires SleepOk(s) && !Th(s, s.current).onSleepQ
    ensures var s' := Expire(s, now);
            && s'.current == s.current && s'.idle == s.idle && s'.exited == s.exited
            && Th(s', s.current) == Th(s, s.current) && s'.threads.Keys == s.threads.Keys
    decreases |s.sleepq|
  {
    if !(s.sleepq == [] || s.sleepq[0].due > now) {
      ExpireRootEffect(s);
      ExpireSpares(ExpireRoot(s), now);
    }
  }

  lemma ExpireFacts(s: Sched, now: int)
    requires Quiet(s) && OneRuns(s)
    ensures var s' := Expire(s, now);
            && s'.current == s.current && s'.idle == s.idle && s'.exited == s.exited
            && Th(s', s.current) == Th(s, s.current) && s'.threads.Keys == s.threads.Keys
  {
    assert FlagsFit(s.threads[s.current]);
    ExpireSpares(s, now);
  }

  lemma IdleParkQueues(s: Sched, s': Sched)
    requires QueuesOk(s) && s.current == s.idle && Th(s, s.idle).at == InIdle && s.idle in s.threads
    requires Th(s, s.idle).state == Running
    requires s' == s.(threads := s.threads[s.idle := Th(s, s.idle).(state := Runnable)])
    ensures QueuesOk(s')
  {
    SleepFrame(s, s');
  }

  lemma IdleRoundKeeps(s: Sched, now: int, fired: seq<Fired>)
    requires Inv(s) && s.current == s.idle && MayFire(s.ep, fired)
    ensures Inv(IdleRound(s, now, fired))
  {
    if s.activeCount <= 0 {
      ExitedIsIrrelevant(s);
    } else {
      DispatchKeeps(s, fired);
      var s1 := Dispatch(s, fired);
      CheckClockKeeps(s1, now);
      ClockIsIrrelevant(s1, now);
      ExpireFacts(s1.(lastClock := now), now);
      IdleParks(CheckClock(s1, now));
      ScheduleKeeps(Park(CheckClock(s1, now), Runnable, InIdle));
    }
  }

  /** The idle thread, right before the context switch. */
  lemma IdleParks(s: Sched)
    requires Quiet(s) && OneRuns(s) && s.current == s.idle
    ensures var s' := Park(s, Runnable, InIdle); Quiet(s') && NobodyRuns(s')
  {
    var s' := Park(s, Runnable, InIdle);
    assert StateFits(s.threads[s.idle]) && FlagsFit(s.threads[s.idle]);
    IdleParkQueues(s, s');
    CountedFrame(s, s');
    ParkedIsQuiet(s, s', Th(s', s.idle));
  }

  lemma ExitedIsIrrelevant(s: Sched)
    requires Inv(s)
    ensures Inv(s.(exited := true))
  {
    var s' := s.(exited := true);
    QueuesFrame(s, s');
    CountedFrame(s, s');
    SameThreads(s, s');
  }

  lemma YieldQueues(s: Sched, s': Sched, th: Thread)
    requires QueuesOk(s) && Th(s, s.current).at == Active && Th(s, s.current).state == Running && s.current != s.idle
    requires !Th(s, s.current).onSleepQ && th == Th(s, s.current).(state := Runnable, at := InYield)
    requires s' == s.(threads := s.threads[s.current := th], runq := s.runq + [s.current])
    ensures QueuesOk(s')
  {
    DistinctAppend(s.runq, s.current);
    SleepFrame(s, s');
  }

  lemma YieldKeeps(s: Sched, now: int)
    requires Inv(s) && UserRuns(s)
    ensures Inv(Yield(s, now).0)
  {
    CheckClockKeeps(s, now);
    ClockIsIrrelevant(s, now);
    ExpireFacts(s.(lastClock := now), now);
    var s1 := CheckClock(s, now);
    if s1.runq != [] {
      YieldParks(s1);
      ScheduleKeeps(Park(s1, Runnable, InYield).(runq := s1.runq + [s.current]));
    }
  }

  /** The caller of `st_thread_yield`, right before the context switch. */
  lemma YieldParks(s: Sched)
    requires Quiet(s) && OneRuns(s) && UserRuns(s)
    ensures var s' := Park(s, Runnable, InYield).(runq := s.runq + [s.current]); Quiet(s') && NobodyRuns(s')
  {
    RunningThread(s);
    var s' := Park(s, Runnable, InYield).(runq := s.runq + [s.current]);
    YieldQueues(s, s', Th(s', s.current));
    CountedFrame(s, s');
    ParkedIsQuiet(s, s', Th(s', s.current));
  }

  lemma InterruptKeeps(s: Sched, t: Tid)
    requires Inv(s) && UserRuns(s) && t in s.threads && t != s.idle
    ensures Inv(Interrupt(s, t))
  {
    assert StateFits(s.threads[t]) && FlagsFit(s.threads[t]);
    if Th(s, t).state == Zombie {
    } else if IsReady(Th(s, t).state) {
      SetInterruptKeeps(s, t, true);
    } else {
      InterruptWaiting(s, t);
      InterruptWakes(s, Interrupt(s, t), t, Th(s, t).(interrupt := true, state := Runnable, onSleepQ := false));
    }
  }

  lemma InterruptWaiting(s: Sched, t: Tid)
    requires SleepOk(s) && t in s.threads && IsWaiting(Th(s, t).state)
    ensures var s' := Interrupt(s, t);
            && SleepOk(s')
            && s' == s.(threads := s.threads[t := Th(s, t).(interrupt := true, state := Runnable, onSleepQ := false)],
                        sleepq := s'.sleepq, runq := s.runq + [t])
  {
    var s1 := SetTh(s, t, Th(s, t).(interrupt := true));
    SleepFrame(s, s1);
    MakeRunnableEffect(s1, t);
    UpdateTwice(s.threads, t, Th(s1, t), Th(Interrupt(s, t), t));
  }

  lemma InterruptWakes(s: Sched, s': Sched, t: Tid, th: Thread)
    requires Inv(s) && s.current != s.idle && Woken(s, s', t, th) && th.interrupt && s'.owner == s.owner && SleepOk(s')
    ensures Inv(s')
  {
    WokenJoins(s, s', t, th);
    WokenLocks(s, s', t, th);
    WokenQuiet(s, s', t, th);
  }

  lemma CreateQueues(s: Sched, joinable: bool)
    requires QueuesOk(s) && s.nextTid !in s.threads && s.nextTid != s.idle
    ensures QueuesOk(Create(s, joinable))
  {
    var s' := Create(s, joinable);
    DistinctAppend(s.runq, s.nextTid);
    SleepFrame(s, s');
  }

  lemma CreateThreads(s: Sched, joinable: bool)
    requires ThreadsOk(s)
    ensures var s' := Create(s, joinable); ThreadsOk(s') && ActiveSet(s') == ActiveSet(s) + {s.nextTid}
    ensures s.nextTid !in s.threads && s.nextTid != s.idle && s.nextTid !in ActiveSet(s)
  {
  }

  lemma CreateFits(s: Sched, joinable: bool)
    requires ThreadsOk(s) && LocksFit(s) && JoinsFit(s)
    ensures LocksFit(Create(s, joinable)) && JoinsFit(Create(s, joinable))
  {
    var s' := Create(s, joinable);
    forall x | x in s'.threads
      ensures LockFits(s', x) && JoinFits(s', x)
    {
      assert x in s.threads ==> LockFits(s, x) && JoinFits(s, x);
    }
  }

  /** A new thread gets a number that was never used. */
  lemma CreateKeeps(s: Sched, joinable: bool)
    requires Inv(s) && UserRuns(s)
    ensures Inv(Create(s, joinable))
  {
    CreateThreads(s, joinable);
    CreateQueues(s, joinable);
    CreateFits(s, joinable);
    CreateRuns(s, Create(s, joinable));
    CountedFrame(s, Create(s, joinable));
  }

  lemma CreateRuns(s: Sched, s': Sched)
    requires OneRuns(s) && s.nextTid !in s.threads && s'.current == s.current
    requires s.nextTid in s'.threads && s'.threads[s.nextTid].state == Runnable && s'.threads == s.threads[s.nextTid := s'.threads[s.nextTid]]
    ensures OneRuns(s')
  {
  }

  // ---------------------------------------------------------------- join and exit

  lemma ReapQueues(s: Sched, x: Tid)
    requires QueuesOk(s) && Th(s, x).state == Zombie && x in s.threads && x != s.idle && !Th(s, x).onSleepQ
    ensures QueuesOk(Reap(s, x))
  {
    WithoutEffect(s.zombieq, x);
    DistinctAppend(s.runq, x);
    SleepFrame(s, Reap(s, x));
  }

  lemma ReapFits(s: Sched, x: Tid)
    requires LocksFit(s) && JoinsFit(s) && CondOk(s) && QueueOf(s.condq, Term(x)) == []
    requires x in s.threads && Th(s, x).at == InExit
    ensures LocksFit(Reap(s, x)) && JoinsFit(Reap(s, x))
  {
    var s' := Reap(s, x);
    forall t | t in s'.threads
      ensures LockFits(s', t) && JoinFits(s', t)
    {
      assert LockFits(s, t) && JoinFits(s, t);
      assert t !in QueueOf(s.condq, Term(x));
    }
  }

  /** The zombie nobody else waits for becomes runnable. */
  lemma ReapKeeps(s: Sched, x: Tid)
    requires Inv(s) && UserRuns(s) && Th(s, x).state == Zombie && QueueOf(s.condq, Term(x)) == []
    ensures Inv(Reap(s, x))
  {
    assert x in s.threads;
    assert StateFits(s.threads[x]) && FlagsFit(s.threads[x]);
    var s' := Reap(s, x);
    ReapQueues(s, x);
    ReapFits(s, x);
    ReapThreads(s, x);
    ReapRuns(s, x);
    CountedFrame(s, s');
  }

  lemma ReapRuns(s: Sched, x: Tid)
    requires OneRuns(s) && x in s.threads && Th(s, x).state == Zombie
    ensures OneRuns(Reap(s, x)) && Reap(s, x).current == s.current
  {
  }

  lemma ReapThreads(s: Sched, x: Tid)
    requires ThreadsOk(s) && x in s.threads && x != s.idle && Th(s, x).at == InExit && !Th(s, x).onSleepQ
    ensures ThreadsOk(Reap(s, x)) && ActiveSet(Reap(s, x)) == ActiveSet(s)
  {
    assert StateFits(s.threads[x]) && FlagsFit(s.threads[x]);
  }

  lemma JoinKeeps(s: Sched, x: Tid)
    requires Inv(s) && UserRuns(s) && x in s.threads
    ensures Inv(Join(s, x).0)
  {
    if Th(s, x).joinable && s.current != x && CondQ(s, Term(x)) == [] {
      if Th(s, x).state == Zombie {
        ReapKeeps(s, x);
      } else {
        WaitKeeps(s, Term(x), None, InJoin(x));
      }
    }
  }

  /** The caller of `st_thread_exit` holds no mutex. */
  ghost predicate HoldsNothing(s: Sched) {
    forall m :: m in s.owner ==> s.owner[m] != s.current
  }

  lemma VanishQueues(s: Sched, s': Sched)
    requires QueuesOk(s) && s.current != s.idle
    requires var me := Th(s, s.current); me.state == Running && me.at in {Active, InExit} && !me.onSleepQ
    requires s' == s.(threads := s.threads - {s.current}, activeCount := s'.activeCount)
    ensures QueuesOk(s')
  {
    SleepFrame(s, s');
  }

  lemma VanishFits(s: Sched, s': Sched)
    requires LocksFit(s) && JoinsFit(s) && s.current in s.threads && Th(s, s.current).state == Running
    requires forall m :: m in s.owner ==> s.owner[m] != s.current
    requires s' == s.(threads := s.threads - {s.current}, activeCount := s'.activeCount)
    ensures LocksFit(s') && JoinsFit(s')
  {
    forall t | t in s'.threads
      ensures LockFits(s', t) && JoinFits(s', t)
    {
      assert LockFits(s, t) && JoinFits(s, t);
    }
  }

  /** A thread that holds nothing is switched out for good. */
  lemma VanishParks(s: Sched, s': Sched)
    requires Quiet(s) && OneRuns(s) && s.current != s.idle && HoldsNothing(s)
    requires Th(s, s.current).at in {Active, InExit}
    requires s' == s.(threads := s.threads - {s.current},
                      activeCount := s.activeCount - if Th(s, s.current).at == Active then 1 else 0)
    ensures Quiet(s') && NobodyRuns(s')
  {
    var t := s.current;
    assert StateFits(s.threads[t]) && FlagsFit(s.threads[t]);
    VanishQueues(s, s');
    VanishFits(s, s');
    assert ActiveSet(s') == ActiveSet(s) - {t};
    assert ThreadsOk(s');
    CountedFrame(s, s');
  }

  lemma ZombieQueues(s: Sched, s': Sched, th: Thread)
    requires QueuesOk(s) && Th(s, s.current).at == Active && Th(s, s.current).state == Running && !Th(s, s.current).onSleepQ
    requires th == Th(s, s.current).(state := Zombie, at := InExit)
    requires s' == s.(threads := s.threads[s.current := th], zombieq := s.zombieq + [s.current], activeCount := s'.activeCount)
    ensures QueuesOk(s')
  {
    DistinctAppend(s.zombieq, s.current);
    SleepFrame(s, s');
  }

  lemma ZombieThreads(s: Sched, s': Sched, th: Thread)
    requires ThreadsOk(s) && s.current in s.threads && s.current != s.idle && !Th(s, s.current).onSleepQ
    requires Th(s, s.current).at == Active && Th(s, s.current).joinable && !Th(s, s.current).timedOut
    requires th == Th(s, s.current).(state := Zombie, at := InExit)
    requires s' == s.(threads := s.threads[s.current := th], zombieq := s'.zombieq, activeCount := s'.activeCount)
    ensures ThreadsOk(s') && ActiveSet(s') == ActiveSet(s) - {s.current} && s.current in ActiveSet(s)
  {
  }

  /** The one joiner, if it still waits, is woken and finds the zombie. */
  lemma ZombieSignal(s: Sched, s1: Sched, s': Sched, th: Thread)
    requires Inv(s) && UserRuns(s) && HoldsNothing(s)
    requires th == Th(s, s.current).(state := Zombie, at := InExit)
    requires s1 == s.(threads := s.threads[s.current := th], zombieq := s.zombieq + [s.current], activeCount := s.activeCount - 1)
    requires Core(s1) && EpollOk(s1) && NobodyRuns(s1)
    requires s' == Signal(s1, Term(s.current), false)
    ensures Quiet(s') && NobodyRuns(s')
  {
    var q := QueueOf(s.condq, Term(s.current));
    if q == [] || Th(s1, q[0]).state != CondWait {
      assert q != [] ==> SignalFrom(s1, q[1..], false) == s1;
      assert s' == s1;
      ZombieFits(s, s1, s1);
    } else {
      var t := q[0];
      assert t in QueueOf(s.condq, Term(s.current));
      assert s' == MakeRunnable(s1, t);
      MakeRunnableEffect(s1, t);
      ZombieFits(s, s1, s');
      assert FlagsFit(s1.threads[t]);
      WokenQuiet(s1, s', t, Th(s', t));
    }
  }

  lemma ZombieFits(s: Sched, s1: Sched, s': Sched)
    requires Inv(s) && UserRuns(s) && HoldsNothing(s)
    requires s1 == s.(threads := s.threads[s.current := Th(s, s.current).(state := Zombie, at := InExit)],
                      zombieq := s1.zombieq, activeCount := s1.activeCount)
    requires var q := QueueOf(s.condq, Term(s.current));
             if q == [] || Th(s, q[0]).state != CondWait then s' == s1
             else s' == s1.(threads := s1.threads[q[0] := Th(s1, q[0]).(state := Runnable, onSleepQ := false)],
                            sleepq := s'.sleepq, runq := s'.runq)
    ensures LocksFit(s') && JoinsFit(s')
  {
    var q := QueueOf(s.condq, Term(s.current));
    forall t | t in s'.threads
      ensures LockFits(s', t) && JoinFits(s', t)
    {
      ZombieFitsOne(s, s1, s', t);
    }
  }

  lemma ZombieFitsOne(s: Sched, s1: Sched, s': Sched, t: Tid)
    requires LocksFit(s) && JoinsFit(s) && CondOk(s) && UserRuns(s) && t in s.threads && t in s'.threads
    requires s1 == s.(threads := s.threads[s.current := Th(s, s.current).(state := Zombie, at := InExit)],
                      zombieq := s1.zombieq, activeCount := s1.activeCount)
    requires var q := QueueOf(s.condq, Term(s.current));
             if q == [] || Th(s, q[0]).state != CondWait then s' == s1
             else s' == s1.(threads := s1.threads[q[0] := Th(s1, q[0]).(state := Runnable, onSleepQ := false)],
                            sleepq := s'.sleepq, runq := s'.runq)
    requires s.current in s.threads && FlagsFit(s.threads[t]) && OneRuns(s)
    ensures LockFits(s', t) && JoinFits(s', t)
  {
    var q := QueueOf(s.condq, Term(s.current));
    assert |q| <= 1;
    assert LockFits(s, t) && JoinFits(s, t);
    assert t in q <==> WaitsFor(Th(s, t).at, Term(s.current));
    if q != [] {
      assert q[0] in q && WaitsFor(Th(s, q[0]).at, Term(s.current));
      assert t in q ==> t == q[0];
    }
  }

  lemma ExitKeeps(s: Sched)
    requires Inv(s) && UserRuns(s) && HoldsNothing(s)
    ensures Inv(Exit(s))
  {
    if Th(s, s.current).joinable {
      ExitJoinableKeeps(s);
    } else {
      ExitDetachedKeeps(s, s.(activeCount := s.activeCount - 1));
    }
  }

  lemma ExitDetachedKeeps(s: Sched, s1: Sched)
    requires Inv(s) && UserRuns(s) && HoldsNothing(s) && s1 == s.(activeCount := s.activeCount - 1)
    ensures Inv(Schedule(Vanish(s1)))
  {
    VanishParks(s, Vanish(s1));
    ScheduleKeeps(Vanish(s1));
  }

  /** A joinable thread that exits, before it signals its termination. */
  function Zombified(s: Sched): Sched {
    Park(s.(activeCount := s.activeCount - 1), Zombie, InExit).(zombieq := s.zombieq + [s.current])
  }

  lemma ExitJoinableKeeps(s: Sched)
    requires Inv(s) && UserRuns(s) && HoldsNothing(s) && Th(s, s.current).joinable
    ensures Exit(s) == Schedule(Signal(Zombified(s), Term(s.current), false))
    ensures Inv(Exit(s))
  {
    ZombieParks(s, Zombified(s), Signal(Zombified(s), Term(s.current), false));
    ScheduleKeeps(Signal(Zombified(s), Term(s.current), false));
  }

  /** A joinable caller of `st_thread_exit`, right before the context switch. */
  lemma ZombieParks(s: Sched, s1: Sched, s2: Sched)
    requires Inv(s) && UserRuns(s) && HoldsNothing(s) && Th(s, s.current).joinable
    requires s1 == Zombified(s) && s2 == Signal(s1, Term(s.current), false)
    ensures Quiet(s2) && NobodyRuns(s2)
  {
    RunningThread(s);
    var th := Th(s, s.current).(state := Zombie, at := InExit);
    ZombieQueues(s, s1, th);
    ZombieThreads(s, s1, th);
    ZombieCounted(s, s1);
    ZombieSignal(s, s1, s2, th);
  }

  lemma ZombieCounted(s: Sched, s1: Sched)
    requires EpollOk(s) && s.current !in s.ioq && s1 == Zombified(s)
    ensures EpollOk(s1)
  {
    CountedFrame(s, s1);
  }

  // ---------------------------------------------------------------- resuming

  /** The thread in s is back in the program's code in s'. */
  ghost predicate Activated(s: Sched, s': Sched, th: Thread) {
    && th.at == Active && th.state == Running && !th.onSleepQ && !th.timedOut && th.joinable == Th(s, s.current).joinable
    && s' == s.(threads := s.threads[s.current := th], ioq := s'.ioq, condq := s'.condq, lockq := s'.lockq, ep := s'.ep)
  }

  lemma ActivatedKeeps(s: Sched, s': Sched, th: Thread)
    requires Inv(s) && s.current != s.idle && Activated(s, s', th)
    requires QueuesOk(s') && EpollOk(s')
    requires !Th(s, s.current).at.InExit?
    ensures Inv(s')
  {
    ActivatedThreads(s, s', th);
    ActivatedFits(s, s', th);
  }

  lemma ActivatedThreads(s: Sched, s': Sched, th: Thread)
    requires ThreadsOk(s) && s.current in s.threads && s.current != s.idle && Activated(s, s', th)
    requires !Th(s, s.current).at.InExit?
    ensures ThreadsOk(s') && ActiveSet(s') == ActiveSet(s)
  {
  }

  lemma ActivatedFits(s: Sched, s': Sched, th: Thread)
    requires LocksFit(s) && JoinsFit(s) && s.current in s.threads && Th(s, s.current).state == Running && Activated(s, s', th)
    ensures LocksFit(s') && JoinsFit(s')
  {
    forall t | t in s'.threads
      ensures LockFits(s', t) && JoinFits(s', t)
    {
      assert LockFits(s, t) && JoinFits(s, t);
    }
  }

  lemma ActivatedQueues(s: Sched, s': Sched, th: Thread)
    requires QueuesOk(s) && s.current in s.threads && Activated(s, s', th)
    requires Th(s, s.current).state == Running && !Th(s, s.current).onSleepQ
    requires s'.ioq == if Th(s, s.current).at.InPoll? then Without(s.ioq, s.current) else s.ioq
    requires forall c :: QueueOf(s'.condq, c) == if WaitsFor(Th(s, s.current).at, c)
                           then Without(QueueOf(s.condq, c), s.current) else QueueOf(s.condq, c)
    requires forall m :: QueueOf(s'.lockq, m) == if Th(s, s.current).at == InLock(m)
                           then Without(QueueOf(s.lockq, m), s.current) else QueueOf(s.lockq, m)
    ensures QueuesOk(s')
  {
    WithoutEffect(s.ioq, s.current);
    ActivatedWaitQueues(s, s', th);
    SleepFrame(s, s');
  }

  lemma {:induction false} WithoutShorter(q: seq<Tid>, t: Tid)
    ensures |Without(q, t)| <= |q|
  {
    if q != [] && q[0] != t {
      WithoutShorter(q[1..], t);
    }
  }

  lemma ActivatedWaitQueues(s: Sched, s': Sched, th: Thread)
    requires CondOk(s) && LockOk(s) && s.current in s.threads && Activated(s, s', th)
    requires forall c :: QueueOf(s'.condq, c) == if WaitsFor(Th(s, s.current).at, c)
                           then Without(QueueOf(s.condq, c), s.current) else QueueOf(s.condq, c)
    requires forall m :: QueueOf(s'.lockq, m) == if Th(s, s.current).at == InLock(m)
                           then Without(QueueOf(s.lockq, m), s.current) else QueueOf(s.lockq, m)
    ensures CondOk(s') && LockOk(s')
  {
    forall c
      ensures Distinct(QueueOf(s'.condq, c)) && |QueueOf(s'.condq, c)| <= |QueueOf(s.condq, c)|
    {
      WithoutEffect(QueueOf(s.condq, c), s.current);
      WithoutShorter(QueueOf(s.condq, c), s.current);
    }
    forall t, c
      ensures t in QueueOf(s'.condq, c) <==> WaitsFor(Th(s', t).at, c)
    {
      WithoutEffect(QueueOf(s.condq, c), s.current);
      assert t in QueueOf(s.condq, c) <==> WaitsFor(Th(s, t).at, c);
    }
    forall m
      ensures Distinct(QueueOf(s'.lockq, m))
    {
      WithoutEffect(QueueOf(s.lockq, m), s.current);
    }
    forall t, m
      ensures t in QueueOf(s'.lockq, m) <==> Th(s', t).at == InLock(m)
    {
      WithoutEffect(QueueOf(s.lockq, m), s.current);
      assert t in QueueOf(s.lockq, m) <==> Th(s, t).at == InLock(m);
    }
  }

  /** Returning from `st_poll`: a pollq that is still linked is unlinked and its entries are no longer counted. */
  lemma PollReturnKeeps(s: Sched)
    requires Inv(s) && Th(s, s.current).at.InPoll? && s.current != s.idle
    ensures Inv(Resumed(s).0)
  {
    var s' := Resumed(s).0;
    var th := Th(s, s.current).(at := Active, interrupt := false);
    assert s'.threads == s.threads[s.current := th];
    PollReturned(s, s', th);
  }

  lemma PollReturned(s: Sched, s': Sched, th: Thread)
    requires Inv(s) && Th(s, s.current).at.InPoll? && s.current != s.idle
    requires th == Th(s, s.current).(at := Active, interrupt := false)
    requires s' == s.(threads := s.threads[s.current := th], ioq := s'.ioq, ep := s'.ep)
    requires if Th(s, s.current).at.onIoq then s'.ioq == Without(s.ioq, s.current) && s'.ep == DelAll(s.ep, Th(s, s.current).at.pds)
             else s'.ioq == s.ioq && s'.ep == s.ep
    ensures Inv(s')
  {
    assert StateFits(s.threads[s.current]) && FlagsFit(s.threads[s.current]);
    PollReturnQueues(s, s', th);
    PollReturnEpoll(s, s');
    ActivatedKeeps(s, s', th);
  }

  lemma PollReturnQueues(s: Sched, s': Sched, th: Thread)
    requires QueuesOk(s) && s.current in s.threads && Activated(s, s', th)
    requires Th(s, s.current).state == Running && !Th(s, s.current).onSleepQ && Th(s, s.current).at.InPoll?
    requires s'.ioq == if Th(s, s.current).at.onIoq then Without(s.ioq, s.current) else s.ioq
    requires s'.condq == s.condq && s'.lockq == s.lockq
    ensures QueuesOk(s')
  {
    WithoutEffect(s.ioq, s.current);
    ActivatedQueues(s, s', th);
  }

  lemma PollReturnEpoll(s: Sched, s': Sched)
    requires EpollOk(s) && IoOk(s) && Th(s, s.current).at.InPoll?
    requires forall x :: x != s.current ==> Th(s', x) == Th(s, x)
    requires if Th(s, s.current).at.onIoq then s'.ioq == Without(s.ioq, s.current) && s'.ep == DelAll(s.ep, Th(s, s.current).at.pds)
             else s'.ioq == s.ioq && s'.ep == s.ep
    ensures EpollOk(s')
  {
    if Th(s, s.current).at.onIoq {
      LeaveIoq(s, s', s.current, Th(s, s.current).at.pds, {});
    } else {
      CountedFrame(s, s');
    }
  }

  lemma AfterWaitKeeps(s: Sched, c: CondId)
    requires Inv(s) && WaitsFor(Th(s, s.current).at, c) && s.current != s.idle
    ensures Inv(AfterWait(s, c).0) && UserRuns(AfterWait(s, c).0.(exited := false))
  {
    var t := s.current;
    var s' := AfterWait(s, c).0;
    assert StateFits(s.threads[t]) && FlagsFit(s.threads[t]);
    ActivatedQueues(s, s', Th(s', t));
    CountedFrame(s, s');
    ActivatedKeeps(s, s', Th(s', t));
  }

  lemma LockReturnKeeps(s: Sched)
    requires Inv(s) && Th(s, s.current).at.InLock? && s.current != s.idle
    ensures Inv(Resumed(s).0)
  {
    LockReturns(s);
    LockReturned(s, Resumed(s).0, Th(Resumed(s).0, s.current));
  }

  lemma LockReturns(s: Sched)
    requires Th(s, s.current).at.InLock? && s.current in s.threads
    ensures var s' := Resumed(s).0; var th := Th(s', s.current); var m := Th(s, s.current).at.mutex;
            && th == Th(s, s.current).(at := Active, interrupt := th.interrupt)
            && s' == s.(threads := s.threads[s.current := th], lockq := s.lockq[m := Without(LockQ(s, m), s.current)])
  {
    var s' := Resumed(s).0;
    assert s'.threads == s.threads[s.current := Th(s', s.current)];
  }

  lemma LockReturned(s: Sched, s': Sched, th: Thread)
    requires Inv(s) && Th(s, s.current).at.InLock? && s.current != s.idle
    requires th == Th(s, s.current).(at := Active, interrupt := th.interrupt)
    requires var m := Th(s, s.current).at.mutex;
             s' == s.(threads := s.threads[s.current := th], lockq := s.lockq[m := Without(LockQ(s, m), s.current)])
    ensures Inv(s')
  {
    assert StateFits(s.threads[s.current]) && FlagsFit(s.threads[s.current]);
    ActivatedQueues(s, s', th);
    CountedFrame(s, s');
    ActivatedKeeps(s, s', th);
  }

  lemma PlainReturnKeeps(s: Sched)
    requires Inv(s) && Th(s, s.current).at in {Fresh, InSleep, InYield} && s.current != s.idle
    ensures Inv(Resumed(s).0)
  {
    PlainReturns(s);
    PlainReturned(s, Resumed(s).0, Th(Resumed(s).0, s.current));
  }

  lemma PlainReturns(s: Sched)
    requires Th(s, s.current).at in {Fresh, InSleep, InYield} && s.current in s.threads
    ensures var s' := Resumed(s).0; var th := Th(s', s.current);
            && th == Th(s, s.current).(at := Active, interrupt := th.interrupt)
            && s' == s.(threads := s.threads[s.current := th])
  {
    var s' := Resumed(s).0;
    assert s'.threads == s.threads[s.current := Th(s', s.current)];
  }

  lemma PlainReturned(s: Sched, s': Sched, th: Thread)
    requires Inv(s) && Th(s, s.current).at in {Fresh, InSleep, InYield} && s.current != s.idle
    requires th == Th(s, s.current).(at := Active, interrupt := th.interrupt)
    requires s' == s.(threads := s.threads[s.current := th])
    ensures Inv(s')
  {
    assert StateFits(s.threads[s.current]) && FlagsFit(s.threads[s.current]);
    ActivatedQueues(s, s', th);
    CountedFrame(s, s');
    ActivatedKeeps(s, s', th);
  }

  /** A joiner that returns from its wait without an error finds its target a zombie: it never waits again. */
  lemma JoinerFindsZombie(s: Sched)
    requires Inv(s) && Th(s, s.current).at.InJoin? && s.current != s.idle
    requires !Th(s, s.current).interrupt
    ensures var x := Th(s, s.current).at.target;
            && x in s.threads && x != s.current && Th(s, x).state == Zombie
            && QueueOf(s.condq, Term(x)) == [s.current]
            && Resumed(s) == (Reap(AfterWait(s, Term(x)).0, x), OK)
  {
    var t := s.current;
    var x := Th(s, t).at.target;
    assert JoinFits(s, t) && StateFits(s.threads[t]) && FlagsFit(s.threads[t]);
    assert t in QueueOf(s.condq, Term(x)) && |QueueOf(s.condq, Term(x))| <= 1;
  }

  lemma JoinReturnKeeps(s: Sched)
    requires Inv(s) && Th(s, s.current).at.InJoin? && s.current != s.idle && !s.exited
    ensures Inv(Resumed(s).0)
  {
    var x := Th(s, s.current).at.target;
    AfterWaitKeeps(s, Term(x));
    assert StateFits(s.threads[s.current]) && FlagsFit(s.threads[s.current]);
    if !Th(s, s.current).interrupt {
      JoinerFindsZombie(s);
      var s1 := AfterWait(s, Term(x)).0;
      assert QueueOf(s1.condq, Term(x)) == [] && Th(s1, x).state == Zombie;
      ReapKeeps(s1, x);
    }
  }

  /** What a thread does right after it is switched in. */
  lemma ResumedKeeps(s: Sched)
    requires Inv(s) && s.current != s.idle && Th(s, s.current).at != Active && !s.exited
    ensures Inv(Resumed(s).0)
  {
    match Th(s, s.current).at
    case InPoll(_, _) => PollReturnKeeps(s);
    case InCond(c) => AfterWaitKeeps(s, c);
    case InJoin(_) => JoinReturnKeeps(s);
    case InLock(_) => LockReturnKeeps(s);
    case InExit => ExitReturnKeeps(s);
    case InIdle =>
    case _ => PlainReturnKeeps(s);
  }

  lemma ExitReturnKeeps(s: Sched)
    requires Inv(s) && s.current != s.idle && Th(s, s.current).at == InExit
    ensures Inv(Resumed(s).0)
  {
    ExiterHoldsNothing(s);
    VanishParks(s, Vanish(s));
    ExitReturns(s);
    ScheduleKeeps(Vanish(s));
  }

  lemma ExitReturns(s: Sched)
    requires Th(s, s.current).at == InExit
    ensures Resumed(s) == (Schedule(Vanish(s)), Blocked)
  {
  }

  lemma ExiterHoldsNothing(s: Sched)
    requires LocksFit(s) && Th(s, s.current).at == InExit
    ensures HoldsNothing(s)
  {
  }

}
