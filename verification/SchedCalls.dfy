/**
  What the calls of the scheduler rely on and what they promise to their callers.
 */
module SchedCalls {
  import opened Wrappers
  import opened TimeoutHeapSpec
  import opened Epoll
  import opened Sched
  import opened SchedInv
  import opened SchedRuns
  import opened SchedClock
  import opened SchedCond
  import opened SchedDispatch
  import SchedMutex

  // ---------------------------------------------------------------- what the code relies on

  /** The thread that `_st_vp_schedule` switches in. */
  function Next(s: Sched): Tid {
    if s.runq != [] then s.runq[0] else s.idle
  }

  predicate NextIsRunnable(s: Sched) {
    Th(s, Next(s)).state == Runnable
  }

  /** The running thread may block: it is not in the timeout heap, and another thread is ready. */
  predicate MayBlock(s: Sched) {
    && s.current in s.threads && Position(s.sleepq, s.current) == 0
    && Next(s) != s.current && NextIsRunnable(s)
  }

  /** The state in which `st_thread_exit` switches to another thread. */
  function Leaving(s: Sched): Sched {
    if Th(s, s.current).joinable then Signal(Zombified(s), Term(s.current), false)
    else Vanish(s.(activeCount := s.activeCount - 1))
  }

  /** Behind the clock check of `st_thread_yield`: another ready thread, if the run queue is not empty. */
  predicate YieldsToRunnable(s: Sched) {
    s.runq != [] ==> s.current in s.threads && s.runq[0] != s.current && Th(s, s.runq[0]).state == Runnable
  }

  /** Behind dispatch: the clock can be checked and a thread switched in. */
  ghost predicate IdleMaySwitch(s: Sched, now: int) {
    && SleepOk(s) && !Th(s, s.idle).onSleepQ && s.current == s.idle
    && CheckClock(s, now).current == s.current && s.current in CheckClock(s, now).threads
    && NextIsRunnable(Park(CheckClock(s, now), Runnable, InIdle))
  }

  /** A joiner finds its target a zombie, and a thread that goes for good leaves a ready one. */
  predicate MayResume(s: Sched) {
    match Th(s, s.current).at
    case InJoin(x) =>
      AfterWait(s, Term(x)).1 == OK ==> x in s.threads && x != s.current && Th(s, x).state == Zombie
    case InExit => NextIsRunnable(Vanish(s))
    case _ => true
  }

  lemma AwakeHasNoPosition(s: Sched, t: Tid)
    requires SleepOk(s)
    ensures Position(s.sleepq, t) > 0 <==> Th(s, t).onSleepQ
  {
    var i := Position(s.sleepq, t);
    if i > 0 {
      assert At(s.sleepq, i) in s.sleepq;
    } else {
      PositionFound(s.sleepq, t);
      assert Timed(t, Th(s, t).due) !in s.sleepq;
    }
  }

  lemma DispatchOneSleeps(s: Sched, t: Tid)
    requires SleepOk(s) && t in s.threads
    ensures SleepOk(DispatchOne(s, t)) && DispatchOne(s, t).threads.Keys == s.threads.Keys
  {
    if ToNotify(s, t) {
      NotifiedEffect(s, t);
    } else {
      SleepFrame(s, DispatchOne(s, t));
    }
  }

  lemma {:induction false} ClockKeepsCurrent(s: Sched, now: int)
    ensures Expire(s, now).current == s.current && Expire(s, now).idle == s.idle
    decreases |s.sleepq|
  {
    if !(s.sleepq == [] || s.sleepq[0].due > now) {
      ClockKeepsCurrent(ExpireRoot(s), now);
    }
  }

  lemma CallerMayBlock(s: Sched)
    requires Inv(s) && UserRuns(s)
    ensures MayBlock(s)
  {
    RunningThread(s);
    AwakeHasNoPosition(s, s.current);
    assert StateFits(s.threads[s.idle]);
    if s.runq != [] {
      assert s.runq[0] in s.runq;
    }
  }

  /** Whenever nobody runs and the queues are in order, the thread that is switched in is RUNNABLE. */
  lemma QuietMaySwitch(s: Sched)
    requires Quiet(s) && NobodyRuns(s)
    ensures NextIsRunnable(s)
  {
    assert StateFits(s.threads[s.idle]);
    if s.runq != [] {
      assert s.runq[0] in s.runq;
    }
  }

  // ---------------------------------------------------------------- what the calls promise

  /** The threads that run next, in order: the running one, unless it is the idle thread, and the run queue. */
  function RunsNext(s: Sched): seq<Tid> {
    (if s.current == s.idle then [] else [s.current]) + s.runq
  }

  /** The caller has left the processor to the first ready thread, or else to the idle thread; all others are as before. */
  ghost predicate HandedOn(s: Sched, s': Sched) {
    && s'.current == Next(s) && s'.current != s.current
    && Th(s', s'.current) == Th(s, s'.current).(state := Running)
    && s'.runq == (if s.runq == [] then [] else s.runq[1..])
    && forall t :: t != s.current && t != s'.current ==> Th(s', t) == Th(s, t)
  }

  /** The caller waits, and is in the timeout heap with its due time iff it has a time-out. */
  ghost predicate CallerWaits(s: Sched, s': Sched, state: State, at: Resume, timeout: Option<nat>) {
    && HandedOn(s, s')
    && Th(s', s.current).state == state && Th(s', s.current).at == at
    && (timeout.Some? ==> Timed(s.current, s.lastClock + timeout.value) in s'.sleepq)
    && (timeout.None? ==> forall due :: Timed(s.current, due) !in s'.sleepq)
  }

  /** A pending interrupt ends the call at once, and is taken. */
  ghost predicate TakesInterrupt(s: Sched, s': Sched, r: Result) {
    && (r == Done(-1, EINTR) <==> Th(s, s.current).interrupt)
    && (r == Done(-1, EINTR) ==> s' == TakeInterrupt(s) && !Th(s', s.current).interrupt)
  }

  lemma CallerParked(s: Sched, s1: Sched, s': Sched, state: State, at: Resume, timeout: Option<nat>)
    requires MayBlock(s) && SleepOk(s')
    requires s1.threads == s.threads[s.current := Th(s, s.current).(state := state, at := at)]
    requires s1.runq == s.runq && s1.idle == s.idle && s1.lastClock == s.lastClock && s1.sleepq == s.sleepq
    requires !Th(s, s.current).onSleepQ
    requires s' == Schedule(AddSleepQIf(s1, s.current, timeout))
    ensures CallerWaits(s, s', state, at, timeout)
  {
    var s2 := AddSleepQIf(s1, s.current, timeout);
    AddSleepQIfFacts(s1, s.current, timeout);
    UpdateTwice(s.threads, s.current, Th(s1, s.current), Th(s2, s.current));
    CallerHandsOn(s, s2, s', Th(s2, s.current));
    CallerSleeps(s', s.current, s.lastClock, timeout);
  }

  lemma CallerHandsOn(s: Sched, s2: Sched, s': Sched, th: Thread)
    requires MayBlock(s) && s2.threads == s.threads[s.current := th] && s2.runq == s.runq && s2.idle == s.idle
    requires s' == Schedule(s2)
    ensures HandedOn(s, s') && Th(s', s.current) == th && s'.sleepq == s2.sleepq
  {
  }

  lemma CallerSleeps(s: Sched, t: Tid, clock: int, timeout: Option<nat>)
    requires SleepOk(s) && Th(s, t).onSleepQ == timeout.Some?
    requires timeout.Some? ==> Th(s, t).due == clock + timeout.value
    ensures timeout.Some? ==> Timed(t, clock + timeout.value) in s.sleepq
    ensures timeout.None? ==> forall due :: Timed(t, due) !in s.sleepq
  {
    forall due
      ensures Timed(t, due) in s.sleepq <==> Th(s, t).onSleepQ && Th(s, t).due == due
    {
      var e := Timed(t, due);
      assert e in s.sleepq <==> Th(s, e.item).onSleepQ && Th(s, e.item).due == e.due;
    }
  }

  ghost predicate SleepPromise(s: Sched, s': Sched, r: Result, timeout: Option<nat>) {
    && TakesInterrupt(s, s', r) && (r == Blocked || r == Done(-1, EINTR))
    && (r == Blocked ==> CallerWaits(s, s', if timeout.Some? then Sleeping else Suspended, InSleep, timeout))
  }

  lemma SleepCall(s: Sched, timeout: Option<nat>)
    requires Inv(s) && UserRuns(s)
    ensures MayBlock(s)
    ensures var (s', r) := USleep(s, timeout); Inv(s') && SleepPromise(s, s', r, timeout)
  {
    CallerMayBlock(s);
    USleepKeeps(s, timeout);
    RunningThread(s);
    SleepPromised(s, USleep(s, timeout).0, timeout);
  }

  lemma SleepPromised(s: Sched, s': Sched, timeout: Option<nat>)
    requires MayBlock(s) && !Th(s, s.current).onSleepQ && SleepOk(s') && s' == USleep(s, timeout).0
    ensures SleepPromise(s, s', USleep(s, timeout).1, timeout)
  {
    if !Th(s, s.current).interrupt {
      var state := if timeout.Some? then Sleeping else Suspended;
      CallerParked(s, Park(s, state, InSleep), s', state, InSleep, timeout);
    }
  }

  ghost predicate WaitPromise(s: Sched, s': Sched, r: Result, c: CondId, timeout: Option<nat>, at: Resume) {
    && TakesInterrupt(s, s', r) && (r == Blocked || r == Done(-1, EINTR))
    && (r == Blocked ==> CallerWaits(s, s', CondWait, at, timeout) && CondQ(s', c) == CondQ(s, c) + [s.current])
  }

  lemma WaitCall(s: Sched, c: nat, timeout: Option<nat>)
    requires Inv(s) && UserRuns(s)
    ensures MayBlock(s)
    ensures var (s', r) := Wait(s, User(c), timeout, InCond(User(c)));
            Inv(s') && WaitPromise(s, s', r, User(c), timeout, InCond(User(c)))
  {
    CallerMayBlock(s);
    WaitKeeps(s, User(c), timeout, InCond(User(c)));
    RunningThread(s);
    WaitPromised(s, Wait(s, User(c), timeout, InCond(User(c))).0, User(c), timeout, InCond(User(c)));
  }

  lemma WaitPromised(s: Sched, s': Sched, c: CondId, timeout: Option<nat>, at: Resume)
    requires MayBlock(s) && !Th(s, s.current).onSleepQ && SleepOk(s') && s' == Wait(s, c, timeout, at).0
    ensures WaitPromise(s, s', Wait(s, c, timeout, at).1, c, timeout, at)
  {
    if !Th(s, s.current).interrupt {
      var s1 := Park(s, CondWait, at);
      CallerParked(s, s1.(condq := s1.condq[c := CondQ(s1, c) + [s.current]]), s', CondWait, at, timeout);
    }
  }

  ghost predicate SignalPromise(s: Sched, s': Sched, c: nat, broadcast: bool) {
    var w := Waiters(s, CondQ(s, User(c)));
    WokenAll(s, s', if broadcast || w == [] then w else [w[0]])
  }

  lemma SignalCall(s: Sched, c: nat, broadcast: bool)
    requires Inv(s) && UserRuns(s)
    ensures forall t :: t in CondQ(s, User(c)) ==> t in s.threads
    ensures var s' := Signal(s, User(c), broadcast); Inv(s') && SignalPromise(s, s', c, broadcast)
  {
    UserSignalKeeps(s, c, broadcast);
    LinkedThreads(s, User(c));
    SignalWakes(s, CondQ(s, User(c)), broadcast);
  }

  lemma LinkedThreads(s: Sched, c: CondId)
    requires CondOk(s)
    ensures Distinct(CondQ(s, c)) && forall t :: t in CondQ(s, c) ==> t in s.threads
  {
    assert Distinct(QueueOf(s.condq, c));
    forall t | t in CondQ(s, c)
      ensures t in s.threads
    {
      assert WaitsFor(Th(s, t).at, c);
    }
  }

  /** 0 makes the caller the owner of a mutex that was free; a caller that is switched out waits behind the others for the owner. */
  ghost predicate LockPromise(s: Sched, s': Sched, r: Result, m: nat) {
    && TakesInterrupt(s, s', r)
    && (r == OK <==> !Th(s, s.current).interrupt && m !in s.owner)
    && (r == OK ==> s' == s.(owner := s'.owner) && m in s'.owner && s'.owner[m] == s.current)
    && (r == Done(-1, EDEADLK) <==> !Th(s, s.current).interrupt && m in s.owner && s.owner[m] == s.current)
    && (r == Blocked ==> m in s'.owner && s'.owner[m] != s.current && s'.owner == s.owner)
    && (r == Blocked ==> CallerWaits(s, s', LockWait, InLock(m), None) && LockQ(s', m) == LockQ(s, m) + [s.current])
  }

  lemma LockCall(s: Sched, m: nat)
    requires Inv(s) && UserRuns(s)
    ensures MayBlock(s)
    ensures var (s', r) := Lock(s, m); Inv(s') && LockPromise(s, s', r, m)
  {
    CallerMayBlock(s);
    LockKeeps(s, m);
    RunningThread(s);
    LockPromised(s, Lock(s, m).0, m);
  }

  lemma LockPromised(s: Sched, s': Sched, m: nat)
    requires MayBlock(s) && !Th(s, s.current).onSleepQ && SleepOk(s') && s' == Lock(s, m).0
    ensures LockPromise(s, s', Lock(s, m).1, m)
  {
    if Lock(s, m).1 == Blocked {
      var s1 := Park(s, LockWait, InLock(m));
      CallerParked(s, s1.(lockq := s1.lockq[m := LockQ(s1, m) + [s.current]]), s', LockWait, InLock(m), None);
    }
  }

  ghost predicate TryLockPromise(s: Sched, s': Sched, r: Result, m: nat) {
    && (r == OK <==> m !in s.owner) && (r != OK ==> r == Done(-1, EBUSY) && s' == s)
    && (r == OK ==> s' == s.(owner := s'.owner) && m in s'.owner && s'.owner[m] == s.current)
  }

  lemma TryLockCall(s: Sched, m: nat)
    requires Inv(s) && UserRuns(s)
    ensures var (s', r) := TryLock(s, m); Inv(s') && TryLockPromise(s, s', r, m)
  {
    TryLockKeeps(s, m);
  }

  /** The mutex goes to the first thread of its queue that still waits, or is free when none does. */
  ghost predicate UnlockPromise(s: Sched, s': Sched, r: Result, m: nat) {
    var q := LockQ(s, m);
    && (r == OK <==> m in s.owner && s.owner[m] == s.current) && (r != OK ==> r == Done(-1, EPERM) && s' == s)
    && (r == OK && (forall t :: t in q ==> Th(s, t).state != LockWait) ==> m !in s'.owner)
    && (r == OK ==> forall i :: 0 <= i < |q| && Th(s, q[i]).state == LockWait
                                && (forall j :: 0 <= j < i ==> Th(s, q[j]).state != LockWait) ==>
          m in s'.owner && s'.owner[m] == q[i] && Th(s', q[i]).state == Runnable && s'.runq == s.runq + [q[i]])
  }

  lemma UnlockCall(s: Sched, m: nat)
    requires Inv(s) && UserRuns(s)
    ensures forall t :: t in LockQ(s, m) ==> t in s.threads
    ensures var (s', r) := Unlock(s, m); Inv(s') && UnlockPromise(s, s', r, m)
  {
    UnlockKeeps(s, m);
    assert forall t :: t in QueueOf(s.lockq, m) ==> Th(s, t).at == InLock(m);
    UnlockPromised(s, m);
  }

  lemma UnlockPromised(s: Sched, m: nat)
    ensures var (s', r) := Unlock(s, m); UnlockPromise(s, s', r, m)
  {
    var q := LockQ(s, m);
    var first := FirstWaiter(s, q);
    assert first < |q| ==> q[first] in q;
    assert forall i :: 0 <= i < |q| && Th(s, q[i]).state == LockWait ==> first <= i;
  }

  ghost predicate CreatePromise(s: Sched, s': Sched, t: Tid, joinable: bool) {
    && t !in s.threads && t in s'.threads && Th(s', t).state == Runnable && Th(s', t).at == Fresh
    && Th(s', t).joinable == joinable && !Th(s', t).onSleepQ && !Th(s', t).interrupt
    && s'.runq == s.runq + [t] && s'.current == s.current
    && (forall x :: x in s.threads ==> x in s'.threads && s'.threads[x] == s.threads[x])
    && ActiveSet(s') == ActiveSet(s) + {t}
  }

  lemma CreateCall(s: Sched, joinable: bool)
    requires Inv(s) && UserRuns(s)
    ensures Inv(Create(s, joinable)) && CreatePromise(s, Create(s, joinable), s.nextTid, joinable)
  {
    CreateKeeps(s, joinable);
    CreateThreads(s, joinable);
  }

  /** The caller is gone, or a zombie for whom no joiner waits any more; either way another thread runs. */
  ghost predicate ExitPromise(s: Sched, s': Sched) {
    && s'.current != s.current
    && RunsNext(s') == s.runq + (if Th(s, s.current).joinable then Waiters(s, CondQ(s, Term(s.current))) else [])
    && (!Th(s, s.current).joinable ==> s.current !in s'.threads)
    && (Th(s, s.current).joinable ==>
          && Th(s', s.current).state == Zombie && s.current in s'.zombieq
          && forall t :: Th(s', t).at == InJoin(s.current) ==> IsReady(Th(s', t).state))
  }

  lemma ExitCall(s: Sched)
    requires Inv(s) && UserRuns(s) && HoldsNothing(s)
    ensures s.current in s.threads && NextIsRunnable(Leaving(s))
    ensures Th(s, s.current).joinable ==> SleepOk(Zombified(s))
    ensures forall t :: t in CondQ(s, Term(s.current)) ==> t in s.threads
    ensures Inv(Exit(s)) && ExitPromise(s, Exit(s))
  {
    ExitKeeps(s);
    LinkedThreads(s, Term(s.current));
    LeavingMaySwitch(s);
    ExitOrder(s);
    if Th(s, s.current).joinable {
      ZombieStays(s);
      ZombieIsJoined(s, Exit(s));
    } else {
      assert s.runq != [] ==> s.runq[0] in s.runq;
    }
  }

  lemma ScheduleRunsNext(s: Sched)
    requires s.idle !in s.runq
    ensures RunsNext(Schedule(s)) == s.runq
  {
    assert s.runq != [] ==> s.runq[0] in s.runq && [s.runq[0]] + s.runq[1..] == s.runq;
  }

  lemma ExitOrder(s: Sched)
    requires Inv(s) && UserRuns(s)
    ensures RunsNext(Exit(s)) == s.runq + (if Th(s, s.current).joinable then Waiters(s, CondQ(s, Term(s.current))) else [])
  {
    if Th(s, s.current).joinable {
      LinkedThreads(s, Term(s.current));
      RunningThread(s);
      JoinerIsWoken(s, Zombified(s), CondQ(s, Term(s.current)));
    } else {
      ScheduleRunsNext(Vanish(s.(activeCount := s.activeCount - 1)));
    }
  }

  lemma JoinerIsWoken(s: Sched, s1: Sched, q: seq<Tid>)
    requires RunOk(s) && SleepOk(s) && CondOk(s) && !Th(s, s.current).onSleepQ && s.current in s.threads
    requires s.idle in s.threads && Th(s, s.idle).at == InIdle && Th(s, s.current).at == Active
    requires s1 == Zombified(s) && q == CondQ(s, Term(s.current)) && Distinct(q) && forall t :: t in q ==> t in s.threads
    ensures RunsNext(Schedule(Signal(s1, Term(s.current), false))) == s.runq + Waiters(s, q)
  {
    SleepFrame(s, s1);
    SignalWakes(s1, q, false);
    NotLinked(s, q);
    WaitersFrame(s, s1, q);
    WaitersIn(s, q);
    FewWaiters(s, q);
    ScheduleRunsNext(Signal(s1, Term(s.current), false));
  }

  /** The joiner, if any, is neither the running thread nor the idle thread. */
  lemma NotLinked(s: Sched, q: seq<Tid>)
    requires CondOk(s) && Th(s, s.idle).at == InIdle && Th(s, s.current).at == Active && q == CondQ(s, Term(s.current))
    ensures s.current !in q && s.idle !in q && |q| <= 1
  {
    assert q == QueueOf(s.condq, Term(s.current));
    assert !WaitsFor(Th(s, s.current).at, Term(s.current)) && !WaitsFor(Th(s, s.idle).at, Term(s.current));
  }

  lemma {:induction false} FewWaiters(s: Sched, q: seq<Tid>)
    ensures |Waiters(s, q)| <= |q|
  {
    if q != [] {
      FewWaiters(s, q[1..]);
    }
  }

  lemma LeavingMaySwitch(s: Sched)
    requires Inv(s) && UserRuns(s) && HoldsNothing(s)
    ensures NextIsRunnable(Leaving(s)) && (Th(s, s.current).joinable ==> SleepOk(Zombified(s)))
  {
    if Th(s, s.current).joinable {
      ZombieParks(s, Zombified(s), Signal(Zombified(s), Term(s.current), false));
      RunningThread(s);
      SleepFrame(s, Zombified(s));
    } else {
      VanishParks(s, Vanish(s.(activeCount := s.activeCount - 1)));
    }
    QuietMaySwitch(Leaving(s));
  }

  lemma ZombieStays(s: Sched)
    requires Inv(s) && UserRuns(s) && Th(s, s.current).joinable
    ensures Th(Exit(s), s.current).state == Zombie
  {
    var s1 := Zombified(s);
    LinkedThreads(s, Term(s.current));
    RunningThread(s);
    SleepFrame(s, s1);
    SignalWakes(s1, CondQ(s1, Term(s.current)), false);
    WaitersIn(s1, CondQ(s1, Term(s.current)));
    assert s.runq != [] ==> s.runq[0] in s.runq;
  }

  lemma ZombieIsJoined(s: Sched, s': Sched)
    requires Inv(s') && Th(s', s.current).state == Zombie
    ensures s'.current != s.current && s.current in s'.zombieq
    ensures forall t :: Th(s', t).at == InJoin(s.current) ==> IsReady(Th(s', t).state)
  {
    forall t | Th(s', t).at == InJoin(s.current)
      ensures IsReady(Th(s', t).state)
    {
      assert JoinFits(s', t) && StateFits(s'.threads[t]);
    }
  }

  ghost predicate JoinPromise(s: Sched, s': Sched, r: Result, x: Tid) {
    var valid := Th(s, x).joinable && x != s.current && CondQ(s, Term(x)) == [];
    && (r == Done(-1, EDEADLK) <==> Th(s, x).joinable && x == s.current)
    && (r == Done(-1, EINVAL) <==> !Th(s, x).joinable || (x != s.current && CondQ(s, Term(x)) != []))
    && (r == OK <==> valid && Th(s, x).state == Zombie)
    && (r == OK ==> Th(s', x).state == Runnable && x in s'.runq && x !in s'.zombieq && s'.current == s.current)
    && (r == OK ==> s'.runq == s.runq + [x] && forall t :: t != x ==> Th(s', t) == Th(s, t))
    && (r == Done(-1, EINTR) <==> valid && Th(s, x).state != Zombie && Th(s, s.current).interrupt)
    && (r == Done(-1, EINTR) ==> s' == TakeInterrupt(s) && !Th(s', s.current).interrupt)
    && (r == Done(-1, EDEADLK) || r == Done(-1, EINVAL) ==> s' == s)
    && (r == Blocked ==> CallerWaits(s, s', CondWait, InJoin(x), None) && CondQ(s', Term(x)) == [s.current])
  }

  lemma JoinCall(s: Sched, x: Tid)
    requires Inv(s) && UserRuns(s) && x in s.threads
    ensures MayBlock(s)
    ensures var (s', r) := Join(s, x); Inv(s') && JoinPromise(s, s', r, x)
  {
    CallerMayBlock(s);
    JoinKeeps(s, x);
    RunningThread(s);
    JoinPromised(s, Join(s, x).0, x);
  }

  lemma JoinPromised(s: Sched, s': Sched, x: Tid)
    requires MayBlock(s) && !Th(s, s.current).onSleepQ && SleepOk(s') && ZombieOk(s') && s' == Join(s, x).0
    ensures JoinPromise(s, s', Join(s, x).1, x)
  {
    if Join(s, x).1 == OK {
      assert s'.runq == s.runq + [x];
    } else if Th(s, x).joinable && x != s.current && CondQ(s, Term(x)) == [] {
      WaitPromised(s, s', Term(x), None, InJoin(x));
    }
  }

  /**
    The clock has been read, and nobody who is due is left asleep. 0 at once means that nobody else
    was ready, time-outs included, and nothing has changed; otherwise those whose time has come
    run first, the latest due first, then the threads that were ready, and the caller last.
   */
  ghost predicate YieldPromise(s: Sched, s': Sched, r: Result, now: int) {
    && (r == OK || r == Blocked)
    && s'.lastClock == now && (forall e :: e in s'.sleepq ==> e.due > now)
    && (r == OK ==> s' == s.(lastClock := now) && s.runq == []
                    && forall t :: t in s'.threads && t != s.current && t != s'.idle ==> !IsReady(Th(s', t).state))
    && (r == Blocked ==> exists gone :: DueInOrder(s, [], now, gone) && YieldedBehind(s, s', gone))
  }

  /** The caller has made way for the threads whose time has come and for those that were ready. */
  ghost predicate YieldedBehind(s: Sched, s': Sched, gone: seq<Tid>) {
    && s'.current != s.current && [s'.current] + s'.runq == gone + s.runq + [s.current]
    && Th(s', s.current) == Th(s, s.current).(state := Runnable, at := InYield)
    && forall t :: t != s.current ==>
         Th(s', t) == (if t in gone then TimedOutThread(Th(s, t)) else Th(s, t))
                      .(state := if t == s'.current then Running else if t in gone then Runnable else Th(s, t).state)
  }

  lemma YieldCall(s: Sched, now: int)
    requires Inv(s) && UserRuns(s)
    ensures s.current in s.threads && SleepOk(s) && !Th(s, s.idle).onSleepQ && YieldsToRunnable(CheckClock(s, now))
    ensures var (s', r) := Yield(s, now); Inv(s') && YieldPromise(s, s', r, now)
  {
    YieldKeeps(s, now);
    IdleIsAwake(s);
    YieldMaySwitch(s, now);
    YieldPromised(s, now, Yield(s, now).0);
  }

  lemma IdleIsAwake(s: Sched)
    requires ThreadsOk(s)
    ensures !Th(s, s.idle).onSleepQ
  {
    assert FlagsFit(s.threads[s.idle]) && StateFits(s.threads[s.idle]);
  }

  lemma YieldPromised(s: Sched, now: int, s': Sched)
    requires Inv(s) && UserRuns(s) && s' == Yield(s, now).0 && RunOk(s') && OneRuns(s')
    requires CheckClock(s, now).current == s.current && YieldsToRunnable(CheckClock(s, now))
    ensures YieldPromise(s, s', Yield(s, now).1, now)
  {
    var gone := ClockForCaller(s, now);
    YieldTells(s, CheckClock(s, now), now, s', gone);
  }

  lemma ClockForCaller(s: Sched, now: int) returns (gone: seq<Tid>)
    requires Inv(s) && UserRuns(s)
    ensures ClockChecked(s, CheckClock(s, now), now, gone) && s.current !in gone
  {
    gone := Items(Expired(s.sleepq, now));
    ClockFindsDue(s, now);
    CheckClockExact(s, now);
    assert FlagsFit(s.threads[s.current]) && StateFits(s.threads[s.current]);
  }

  /** The clock check has put the threads `gone` before the run queue. */
  ghost predicate ClockChecked(s: Sched, s1: Sched, now: int, gone: seq<Tid>) {
    && DueInOrder(s, [], now, gone) && s1.runq == gone + s.runq && (gone == [] ==> s1 == s.(lastClock := now))
    && s1.lastClock == now && (forall e :: e in s1.sleepq ==> e.due > now)
    && (forall t :: Th(s1, t) == if t in gone then TimedOutThread(Th(s, t)) else Th(s, t))
  }

  lemma YieldTells(s: Sched, s1: Sched, now: int, s': Sched, gone: seq<Tid>)
    requires ClockChecked(s, s1, now, gone) && s.current !in gone && s1.current == s.current && YieldsToRunnable(s1)
    requires s1 == CheckClock(s, now) && s' == Yield(s, now).0 && RunOk(s') && OneRuns(s')
    ensures YieldPromise(s, s', Yield(s, now).1, now)
  {
    if Yield(s, now).1 == OK {
      assert gone == [];
      NobodyElseIsReady(s');
    } else {
      YieldHandsOn(s, s1, s', gone);
    }
  }

  lemma YieldHandsOn(s: Sched, s1: Sched, s': Sched, gone: seq<Tid>)
    requires s1.current == s.current && s1.runq == gone + s.runq && s1.runq != [] && s1.runq[0] != s.current && s.current !in gone
    requires forall t :: Th(s1, t) == if t in gone then TimedOutThread(Th(s, t)) else Th(s, t)
    requires s' == Schedule(Park(s1, Runnable, InYield).(runq := s1.runq + [s.current]))
    ensures YieldedBehind(s, s', gone)
  {
    var all := s1.runq + [s.current];
    assert all[0] == s1.runq[0] && [all[0]] + all[1..] == all;
    assert s'.current == all[0] && s'.runq == all[1..];
  }

  lemma YieldMaySwitch(s: Sched, now: int)
    requires Inv(s) && UserRuns(s)
    ensures var s1 := CheckClock(s, now); s1.current == s.current && YieldsToRunnable(s1)
  {
    CheckClockKeeps(s, now);
    ClockKeepsCurrent(s.(lastClock := now), now);
    var s1 := CheckClock(s, now);
    if s1.runq != [] {
      assert s1.runq[0] in s1.runq;
    }
  }

  lemma NobodyElseIsReady(s: Sched)
    requires RunOk(s) && OneRuns(s) && s.runq == []
    ensures forall t :: t in s.threads && t != s.current && t != s.idle ==> !IsReady(Th(s, t).state)
  {
    assert forall t :: t !in s.runq;
  }

  /** A thread other than a zombie is marked and ready. */
  ghost predicate InterruptPromise(s: Sched, s': Sched, t: Tid) {
    && (Th(s, t).state == Zombie ==> s' == s)
    && (Th(s, t).state != Zombie ==>
          Th(s', t).interrupt && IsReady(Th(s', t).state) && !Th(s', t).onSleepQ && Th(s', t).at == Th(s, t).at)
    && s'.runq == (if IsWaiting(Th(s, t).state) then s.runq + [t] else s.runq)
    && s'.current == s.current && forall x :: x != t ==> Th(s', x) == Th(s, x)
  }

  lemma InterruptCall(s: Sched, t: Tid)
    requires Inv(s) && UserRuns(s) && t in s.threads && t != s.idle
    ensures Th(s, t).onSleepQ ==> Position(s.sleepq, t) > 0
    ensures Inv(Interrupt(s, t)) && InterruptPromise(s, Interrupt(s, t), t)
  {
    InterruptKeeps(s, t);
    AwakeHasNoPosition(s, t);
    assert StateFits(s.threads[t]) && FlagsFit(s.threads[t]);
    InterruptPromised(s, t);
  }

  lemma InterruptPromised(s: Sched, t: Tid)
    requires SleepOk(s) && t in s.threads && (IsReady(Th(s, t).state) ==> !Th(s, t).onSleepQ)
    ensures InterruptPromise(s, Interrupt(s, t), t)
  {
    if IsWaiting(Th(s, t).state) {
      InterruptWaiting(s, t);
    }
  }

  /** The entries of the caller are counted while it waits, and not at all when the call fails. */
  ghost predicate PollPromise(s: Sched, s': Sched, r: Result, pds: seq<Pollfd>, timeout: Option<nat>, refused: set<int>) {
    && TakesInterrupt(s, s', r)
    && (r == Done(-1, EINVAL) <==>
          !Th(s, s.current).interrupt
          && exists i :: 0 <= i < |pds| && (pds[i].fd < 0 || pds[i].events.other
                                            || !(pds[i].events.rd || pds[i].events.wr || pds[i].events.pri)))
    && (r == Done(-1, EPoll) ==> exists i :: 0 <= i < |pds| && pds[i].fd in refused)
    && (r != Blocked ==> SameCounts(s.ep, s'.ep) && s'.ioq == s.ioq && s'.current == s.current)
    && (r == Blocked ==> CallerWaits(s, s', IoWait, InPoll(pds, true), timeout) && s'.ioq == s.ioq + [s.current])
    && (r == Blocked ==> forall fd, k :: Count(Data(s'.ep, fd), k) == Count(Data(s.ep, fd), k) + Refs(pds, fd, k))
  }

  lemma PollCall(s: Sched, pds: seq<Pollfd>, timeout: Option<nat>, refused: set<int>)
    requires Inv(s) && UserRuns(s)
    ensures MayBlock(s)
    ensures var (s', r) := Poll(s, pds, timeout, refused); Inv(s') && PollPromise(s, s', r, pds, timeout, refused)
  {
    CallerMayBlock(s);
    PollKeeps(s, pds, timeout, refused);
    RunningThread(s);
    CountsNonNegative(s);
    PollPromised(s, Poll(s, pds, timeout, refused).0, pds, timeout, refused);
  }

  lemma PollPromised(s: Sched, s': Sched, pds: seq<Pollfd>, timeout: Option<nat>, refused: set<int>)
    requires MayBlock(s) && !Th(s, s.current).onSleepQ && SleepOk(s') && s' == Poll(s, pds, timeout, refused).0
    requires Consistent(s.ep) && NonNegative(s.ep)
    ensures PollPromise(s, s', Poll(s, pds, timeout, refused).1, pds, timeout, refused)
  {
    PollsetAddConsistent(s.ep, pds, refused);
    PollsetAddCounts(s.ep, pds, refused);
    var (ep, r) := AddPollset(s.ep, pds, refused);
    if !Th(s, s.current).interrupt && r == Added {
      var s1 := Park(s, IoWait, InPoll(pds, true)).(ep := ep, ioq := s.ioq + [s.current]);
      CallerParked(s, s1, s', IoWait, InPoll(pds, true), timeout);
      BlockedQueues(s1, s.current, timeout);
    } else if !Th(s, s.current).interrupt {
      assert s' == s.(ep := ep);
    } else {
      assert SameCounts(s.ep, s.ep);
    }
  }

  lemma BlockedQueues(s: Sched, t: Tid, timeout: Option<nat>)
    ensures var s' := Schedule(AddSleepQIf(s, t, timeout)); s'.ioq == s.ioq && s'.ep == s.ep
  {
  }

  /** A round of the idle thread wakes thread t because of a fired event, or else because it is due. */
  ghost predicate WokenByEvent(s: Sched, fired: seq<Fired>, t: Tid) {
    t in s.ioq && ConcernsThread(s, fired, t)
  }

  /**
    What a round of the idle thread does to another thread: a fired event that concerns it, or else
    its due time, makes it ready; a thread that waits for I/O has the answers to the fired events.
   */
  ghost predicate RoundEffect(s: Sched, s': Sched, fired: seq<Fired>, now: int, t: Tid) {
    var th, th' := Th(s, t), Th(s', t);
    var woken, due := WokenByEvent(s, fired, t), th.onSleepQ && th.due <= now;
    && (woken ==> IsReady(th'.state) && th' == th.(at := th'.at, state := th'.state, onSleepQ := false))
    && (!woken && due ==> IsReady(th'.state) && th' == TimedOutThread(th).(at := th'.at, state := th'.state))
    && (!woken && !due ==> th' == th.(at := th'.at, state := th'.state) && (IsReady(th.state) || th'.state == th.state))
    && if t in s.ioq && fired != [] then Answered(s, fired, t, th'.at) else th'.at == th.at
  }

  /** The entries of the pollq of thread t have their answers, and it has left the io queue iff a fired event concerns it. */
  ghost predicate Answered(s: Sched, fired: seq<Fired>, t: Tid, at: Resume) {
    && at.InPoll? && AllAnswered(fired, PdsOf(s, t), at.pds)
    && ReadyCount(at.pds) == |ConcernedEntries(fired, PdsOf(s, t))|
    && (at.onIoq <==> !ConcernsThread(s, fired, t))
  }

  /**
    The program ends with its last active thread; otherwise nobody who is due is left asleep, and
    those run first whose time has come and whom no fired event concerns, the latest due first,
    then those whom fired events concern, in the order of the io queue.
   */
  ghost predicate IdlePromise(s: Sched, s': Sched, now: int, fired: seq<Fired>) {
    && (s'.exited <==> s.activeCount <= 0)
    && (!s'.exited ==> s'.lastClock == now && forall e :: e in s'.sleepq ==> e.due > now)
    && (s'.current == s'.idle ==> forall t :: t in s'.threads && t != s'.idle ==> !IsReady(Th(s', t).state))
    && (!s'.exited ==> exists gone :: DueInOrder(s, ConcernedOf(s, fired, s.ioq), now, gone)
                                      && RunsNext(s') == gone + ConcernedOf(s, fired, s.ioq))
    && (!s'.exited ==> forall t :: t != s.idle ==> RoundEffect(s, s', fired, now, t))
  }

  lemma IdleCall(s: Sched, now: int, fired: seq<Fired>)
    requires Inv(s) && !s.exited && s.current == s.idle && MayFire(s.ep, fired)
    ensures SleepOk(s) && forall t :: t in s.ioq ==> t in s.threads
    ensures s.activeCount > 0 ==> IdleMaySwitch(Dispatch(s, fired), now)
    ensures Inv(IdleRound(s, now, fired)) && IdlePromise(s, IdleRound(s, now, fired), now, fired)
  {
    IdleRoundKeeps(s, now, fired);
    IoqWaitsWhenIdle(s);
    if s.activeCount > 0 {
      DispatchKeeps(s, fired);
      DispatchExits(s, fired);
      IdleSwitches(Dispatch(s, fired), now);
      IdleRunsNext(s, now, fired);
    }
    NobodyElseIsReadyWhenIdle(IdleRound(s, now, fired));
  }

  lemma IdleRunsNext(s: Sched, now: int, fired: seq<Fired>)
    requires Inv(s) && s.current == s.idle && MayFire(s.ep, fired) && s.activeCount > 0
    ensures var s' := IdleRound(s, now, fired);
            && (exists gone :: DueInOrder(s, ConcernedOf(s, fired, s.ioq), now, gone)
                               && RunsNext(s') == gone + ConcernedOf(s, fired, s.ioq))
            && forall t :: t != s.idle ==> RoundEffect(s, s', fired, now, t)
  {
    DispatchKeeps(s, fired);
    IdleOrder(s, Dispatch(s, fired), now, fired);
    forall t | t != s.idle
      ensures RoundEffect(s, IdleRound(s, now, fired), fired, now, t)
    {
      DispatchEffect(s, fired, t);
      IdleEffect(s, Dispatch(s, fired), IdleRound(s, now, fired), now, fired, t);
    }
  }

  lemma IdleOrder(s: Sched, s1: Sched, now: int, fired: seq<Fired>)
    requires Inv(s) && s.current == s.idle && MayFire(s.ep, fired) && s1 == Dispatch(s, fired)
    requires Quiet(s1) && OneRuns(s1) && s1.current == s1.idle == s.idle
    ensures exists gone :: DueInOrder(s, ConcernedOf(s, fired, s.ioq), now, gone)
                           && RunsNext(Schedule(Park(CheckClock(s1, now), Runnable, InIdle))) == gone + ConcernedOf(s, fired, s.ioq)
  {
    DispatchRunq(s, fired);
    ClockFindsDue(s1, now);
    DueBehindDispatch(s, s1, fired, now, Items(Expired(s1.sleepq, now)));
    CheckClockKeeps(s1, now);
    IdleFindsNext(s1, now);
    ScheduleRunsNext(Park(CheckClock(s1, now), Runnable, InIdle));
  }

  lemma IdleEffect(s: Sched, s1: Sched, s': Sched, now: int, fired: seq<Fired>, t: Tid)
    requires Quiet(s1) && OneRuns(s1) && s1.current == s1.idle && t != s1.idle && DispatchedTo(s, fired, t, Th(s1, t))
    requires s' == Schedule(Park(CheckClock(s1, now), Runnable, InIdle))
    ensures RoundEffect(s, s', fired, now, t)
  {
    ClockEffect(s1, now, t);
    IdleFindsNext(s1, now);
    IdleHandsOnThread(CheckClock(s1, now), t);
    RoundHasEffect(s, s1, CheckClock(s1, now), s', fired, now, t);
  }

  /** The switch makes the thread that it switches in running. */
  lemma IdleHandsOnThread(s: Sched, t: Tid)
    requires s.current == s.idle && t != s.idle && (s.runq != [] && t == s.runq[0] ==> Th(s, t).state == Runnable)
    ensures var s' := Schedule(Park(s, Runnable, InIdle));
            Th(s', t) == Th(s, t).(state := Th(s', t).state)
            && (Th(s', t).state == Th(s, t).state || (Th(s, t).state == Runnable && Th(s', t).state == Running))
  {
  }

  lemma {:induction false} NobodyConcerned(s: Sched, q: seq<Tid>)
    ensures ConcernedOf(s, [], q) == []
  {
    if q != [] {
      NobodyConcerned(s, q[..|q| - 1]);
    }
  }

  lemma {:induction false} ConcernedIn(s: Sched, fired: seq<Fired>, q: seq<Tid>, t: Tid)
    ensures t in ConcernedOf(s, fired, q) <==> t in q && ConcernsThread(s, fired, t)
  {
    if q != [] {
      ConcernedIn(s, fired, q[..|q| - 1], t);
      assert q == q[..|q| - 1] + [q[|q| - 1]];
    }
  }

  lemma DispatchRunq(s: Sched, fired: seq<Fired>)
    requires Inv(s) && s.current == s.idle && MayFire(s.ep, fired)
    ensures Dispatch(s, fired).runq == ConcernedOf(s, fired, s.ioq)
  {
    if fired == [] {
      NobodyConcerned(s, s.ioq);
    } else {
      DispatchWakes(s, fired, s.idle);
    }
  }

  /** What dispatch alone does to a thread. */
  ghost predicate DispatchedTo(s: Sched, fired: seq<Fired>, t: Tid, th: Thread) {
    && (if t in s.ioq && fired != [] then Answered(s, fired, t, th.at) else th.at == Th(s, t).at)
    && th == if WokenByEvent(s, fired, t) then Th(s, t).(at := th.at, state := Runnable, onSleepQ := false)
             else Th(s, t).(at := th.at)
  }

  lemma DispatchEffect(s: Sched, fired: seq<Fired>, t: Tid)
    requires Inv(s) && s.current == s.idle && MayFire(s.ep, fired)
    ensures DispatchedTo(s, fired, t, Th(Dispatch(s, fired), t))
  {
    if fired != [] {
      if t in s.ioq {
        DispatchAnswers(s, fired, t);
      } else {
        DispatchWakes(s, fired, t);
      }
    }
  }

  lemma ClockEffect(s: Sched, now: int, t: Tid)
    requires Quiet(s) && OneRuns(s)
    ensures Th(CheckClock(s, now), t) == if Th(s, t).onSleepQ && Th(s, t).due <= now then TimedOutThread(Th(s, t)) else Th(s, t)
    ensures Quiet(CheckClock(s, now))
    ensures CheckClock(s, now).runq != [] && t == CheckClock(s, now).runq[0] ==> Th(CheckClock(s, now), t).state == Runnable
  {
    CheckClockExact(s, now);
    CheckClockKeeps(s, now);
    GoneAreThreads(s, now);
    if t in s.threads {
      GoneIff(s, now, t);
    }
    assert CheckClock(s, now).runq != [] ==> CheckClock(s, now).runq[0] in CheckClock(s, now).runq;
  }

  lemma RoundHasEffect(s: Sched, s1: Sched, s2: Sched, s': Sched, fired: seq<Fired>, now: int, t: Tid)
    requires DispatchedTo(s, fired, t, Th(s1, t))
    requires Th(s2, t) == if Th(s1, t).onSleepQ && Th(s1, t).due <= now then TimedOutThread(Th(s1, t)) else Th(s1, t)
    requires Th(s', t) == Th(s2, t).(state := Th(s', t).state)
    requires Th(s', t).state == Th(s2, t).state || (Th(s2, t).state == Runnable && Th(s', t).state == Running)
    ensures RoundEffect(s, s', fired, now, t)
  {
  }

  lemma DueBehindDispatch(s: Sched, s1: Sched, fired: seq<Fired>, now: int, gone: seq<Tid>)
    requires Inv(s) && s.current == s.idle && MayFire(s.ep, fired) && s1 == Dispatch(s, fired) && DueInOrder(s1, [], now, gone)
    ensures DueInOrder(s, ConcernedOf(s, fired, s.ioq), now, gone)
  {
    forall t
      ensures t in gone <==> t in s.threads && t !in ConcernedOf(s, fired, s.ioq) && Th(s, t).onSleepQ && Th(s, t).due <= now
      ensures Th(s1, t).due == Th(s, t).due
    {
      DispatchEffect(s, fired, t);
      ConcernedIn(s, fired, s.ioq, t);
      assert t in gone <==> Th(s1, t).onSleepQ && Th(s1, t).due <= now;
    }
  }

  lemma {:induction false} DispatchAllExits(s: Sched, q: seq<Tid>)
    ensures DispatchAll(s, q).exited == s.exited
  {
    if q != [] {
      DispatchAllExits(s, q[..|q| - 1]);
    }
  }

  lemma DispatchExits(s: Sched, fired: seq<Fired>)
    ensures Dispatch(s, fired).exited == s.exited
  {
    DispatchAllExits(s.(ep := Mark(s.ep, fired)), s.ioq);
  }

  lemma NobodyElseIsReadyWhenIdle(s: Sched)
    requires Inv(s)
    ensures s.current == s.idle ==> forall t :: t in s.threads && t != s.idle ==> !IsReady(Th(s, t).state)
  {
    if s.current == s.idle {
      NobodyElseIsReady(s);
    }
  }

  lemma IdleSwitches(s: Sched, now: int)
    requires Quiet(s) && OneRuns(s) && s.current == s.idle
    ensures IdleMaySwitch(s, now)
    ensures var s' := Schedule(Park(CheckClock(s, now), Runnable, InIdle));
            s'.exited == s.exited && s'.lastClock == now && forall e :: e in s'.sleepq ==> e.due > now
  {
    assert FlagsFit(s.threads[s.idle]) && StateFits(s.threads[s.idle]);
    ClockIsIrrelevant(s, now);
    ExpireFacts(s.(lastClock := now), now);
    IdleFindsNext(s, now);
    ClockLeavesNoneDue(s.(lastClock := now), now);
  }

  lemma IdleFindsNext(s: Sched, now: int)
    requires Quiet(s) && OneRuns(s) && s.current == s.idle
    ensures CheckClock(s, now).current == s.current && CheckClock(s, now).idle == s.idle
    ensures NextIsRunnable(Park(CheckClock(s, now), Runnable, InIdle))
  {
    CheckClockKeeps(s, now);
    ClockKeepsCurrent(s.(lastClock := now), now);
    IdleParks(CheckClock(s, now));
    QuietMaySwitch(Park(CheckClock(s, now), Runnable, InIdle));
  }

  lemma ClockLeavesNoneDue(s: Sched, now: int)
    requires SleepOk(s)
    ensures Expire(s, now).lastClock == s.lastClock && forall e :: e in Expire(s, now).sleepq ==> e.due > now
  {
    ExpireEffect(s, now);
    ExpiredIsExact(s.sleepq, now);
  }

  // ---------------------------------------------------------------- what the calls return after a switch

  /** What a call that was switched out and comes back returns; none of them blocks again. */
  ghost predicate ReturnPromise(s: Sched, s': Sched, r: Result) {
    var t := s.current;
    var me := Th(s, t);
    && (!me.at.InExit? ==> s'.current == t && Th(s', t).state == Running && Th(s', t).at == Active && r != Blocked)
    && (!me.at.InExit? && !me.at.InJoin? ==> s'.runq == s.runq && forall x :: x != t ==> Th(s', x) == Th(s, x))
    && match me.at
       case InExit => t !in s'.threads && RunsNext(s') == s.runq
       case InPoll(pds, onIoq) =>
         && t !in s'.ioq && !Th(s', t).interrupt
         && r == (if me.interrupt then Done(-1, EINTR) else Done(if onIoq then 0 else ReadyCount(pds), NoError))
         && forall fd, k :: Count(Data(s'.ep, fd), k) == Count(Data(s.ep, fd), k) - if onIoq then Refs(pds, fd, k) else 0
       case InSleep => !Th(s', t).interrupt && r == if me.interrupt then Done(-1, EINTR) else OK
       case InCond(c) =>
         && t !in CondQ(s', c) && !Th(s', t).interrupt && !Th(s', t).timedOut
         && r == if me.interrupt then Done(-1, EINTR) else if me.timedOut then Done(-1, ETIME) else OK
       case InJoin(x) =>
         && r == (if me.interrupt then Done(-1, EINTR) else OK)
         && (r == OK ==> Th(s, x).state == Zombie && Th(s', x).state == Runnable && s'.runq == s.runq + [x] && x !in s'.zombieq)
         && (r != OK ==> s'.runq == s.runq) && !Th(s', t).interrupt && forall y :: y != t && y != x ==> Th(s', y) == Th(s, y)
       case InLock(m) =>
         && t !in LockQ(s', m) && s'.owner == s.owner
         && (r == OK <==> m in s'.owner && s'.owner[m] == t) && (r == OK || r == Done(-1, EINTR))
         && (!me.interrupt ==> r == OK) && Th(s', t).interrupt == (me.interrupt && r == OK)
       case _ => r == OK
  }

  lemma ReturnCall(s: Sched)
    requires Inv(s) && !s.exited && s.current != s.idle && Th(s, s.current).at != Active
    ensures s.current in s.threads && MayResume(s)
    ensures Inv(Resumed(s).0) && ReturnPromise(s, Resumed(s).0, Resumed(s).1)
  {
    ResumedKeeps(s);
    match Th(s, s.current).at
    case InExit => ExitReturn(s);
    case InPoll(pds, onIoq) => PollReturn(s, Resumed(s).0, pds, onIoq);
    case InCond(c) => CondReturn(s, Resumed(s).0, c);
    case InJoin(x) => JoinReturn(s, x);
    case InLock(m) => LockReturn(s, Resumed(s).0, m);
    case _ => PlainReturn(s);
  }

  lemma ExitReturn(s: Sched)
    requires Inv(s) && s.current != s.idle && Th(s, s.current).at == InExit
    ensures MayResume(s) && ReturnPromise(s, Resumed(s).0, Resumed(s).1)
  {
    ExiterHoldsNothing(s);
    VanishParks(s, Vanish(s));
    QuietMaySwitch(Vanish(s));
    ExitReturns(s);
    ExitReturned(s, Resumed(s).0);
  }

  lemma ExitReturned(s: Sched, s': Sched)
    requires RunOk(s) && OneRuns(s) && s.current != s.idle && Th(s, s.current).at == InExit && s' == Schedule(Vanish(s))
    ensures ReturnPromise(s, s', Blocked)
  {
    ScheduleRunsNext(Vanish(s));
    assert s.runq != [] ==> s.runq[0] in s.runq;
  }

  lemma PollReturn(s: Sched, s': Sched, pds: seq<Pollfd>, onIoq: bool)
    requires EpollOk(s) && IoOk(s) && OneRuns(s) && s' == Resumed(s).0 && Th(s, s.current).at == InPoll(pds, onIoq) && IoOk(s')
    ensures ReturnPromise(s, s', Resumed(s).1)
  {
    DelAllCounts(s.ep, pds);
  }

  lemma CondReturn(s: Sched, s': Sched, c: CondId)
    requires OneRuns(s) && s' == Resumed(s).0 && Th(s, s.current).at == InCond(c) && CondOk(s')
    ensures ReturnPromise(s, s', Resumed(s).1)
  {
    assert !WaitsFor(Th(s', s.current).at, c);
    assert s.current !in QueueOf(s'.condq, c);
  }

  lemma LockReturn(s: Sched, s': Sched, m: nat)
    requires Inv(s) && s.current != s.idle && s' == Resumed(s).0 && Th(s, s.current).at == InLock(m) && LockOk(s')
    ensures ReturnPromise(s, s', Resumed(s).1)
  {
    SchedMutex.LockReturn(s, m);
    LockReturns(s);
    assert s.current !in QueueOf(s'.lockq, m);
  }

  lemma JoinReturn(s: Sched, x: Tid)
    requires Inv(s) && s.current != s.idle && !s.exited && Th(s, s.current).at == InJoin(x) && Inv(Resumed(s).0)
    ensures MayResume(s) && ReturnPromise(s, Resumed(s).0, Resumed(s).1)
  {
    assert FlagsFit(s.threads[s.current]);
    if Th(s, s.current).interrupt {
      JoinInterrupted(s, x);
    } else {
      JoinerFindsZombie(s);
      JoinReaps(s, Resumed(s).0, x);
    }
  }

  lemma JoinInterrupted(s: Sched, x: Tid)
    requires OneRuns(s) && Th(s, s.current).at == InJoin(x) && Th(s, s.current).interrupt
    ensures MayResume(s) && ReturnPromise(s, Resumed(s).0, Resumed(s).1)
  {
  }

  lemma JoinReaps(s: Sched, s': Sched, x: Tid)
    requires OneRuns(s) && Th(s, s.current).at == InJoin(x) && !Th(s, s.current).interrupt
    requires x in s.threads && x != s.current && Th(s, x).state == Zombie
    requires s' == Reap(AfterWait(s, Term(x)).0, x) && Resumed(s) == (s', OK) && ZombieOk(s')
    ensures MayResume(s) && ReturnPromise(s, s', OK)
  {
    assert s'.runq == s.runq + [x];
  }

  lemma PlainReturn(s: Sched)
    requires OneRuns(s) && Th(s, s.current).at in {Fresh, InSleep, InYield, InIdle}
    ensures ReturnPromise(s, Resumed(s).0, Resumed(s).1)
  {
  }
}
