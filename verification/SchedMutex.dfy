/**
  What the mutexes of `sync.c` promise, over single steps and over runs: who owns the mutex when a
  call returns, and that waiters are served in the order of their arrival.
 */
module SchedMutex {
  import opened Wrappers
  import opened TimeoutHeapSpec
  import opened Epoll
  import opened Sched
  import opened SchedInv
  import opened SchedRuns
  import opened SchedClock

  /**
    The return of `st_mutex_lock` after a context switch: 0 iff the caller is the owner, and a
    caller that was not interrupted always is; an error leaves the lock to its owner.
   */
  lemma LockReturn(s: Sched, m: nat)
    requires Inv(s) && s.current != s.idle && Th(s, s.current).at == InLock(m)
    ensures var (s', r) := Resumed(s); var owns := m in s.owner && s.owner[m] == s.current;
            && s'.owner == s.owner && s'.current == s.current
            && (r == OK <==> owns)
            && (r == Done(-1, EINTR) <==> !owns)
            && (!Th(s, s.current).interrupt ==> r == OK)
            && (r == OK ==> Th(s', s.current).interrupt == Th(s, s.current).interrupt)
  {
    assert LockFits(s, s.current);
  }

  /** The immediate return of `st_mutex_lock` and `st_mutex_trylock`. */
  lemma LockAtOnce(s: Sched, m: nat)
    requires Inv(s) && UserRuns(s)
    ensures var (s', r) := Lock(s, m); r == OK <==> (m in s'.owner && s'.owner[m] == s.current && m !in s.owner)
    ensures var (s', r) := TryLock(s, m); r == OK <==> m !in s.owner
    ensures TryLock(s, m).1 == OK ==> m in TryLock(s, m).0.owner && TryLock(s, m).0.owner[m] == s.current
    ensures TryLock(s, m).1 != OK ==> TryLock(s, m).0 == s
  {
    var (s', r) := Lock(s, m);
    if r == Blocked {
      assert s'.owner == s.owner;
    }
  }

  /** While a thread is in LOCK_WAIT the mutex is held, and not by that thread. */
  lemma WaitedForMutexIsHeld(s: Sched, t: Tid)
    requires Inv(s) && t in s.threads && s.threads[t].state == LockWait
    ensures s.threads[t].at.InLock?
    ensures var m := s.threads[t].at.mutex; m in s.owner && s.owner[m] in s.threads && s.owner[m] != t
  {
    assert StateFits(s.threads[t]) && LockFits(s, t);
  }

  /** How many LOCK_WAIT threads are linked before t. */
  function Ahead(s: Sched, q: seq<Tid>, t: Tid): nat {
    if q == [] || q[0] == t then 0
    else (if Th(s, q[0]).state == LockWait then 1 else 0) + Ahead(s, q[1..], t)
  }

  /** The same threads are in LOCK_WAIT. */
  ghost predicate SameLockWait(s: Sched, s': Sched) {
    && s'.lockq == s.lockq && s'.owner == s.owner
    && forall t :: Th(s', t).state == LockWait <==> Th(s, t).state == LockWait
  }

  lemma {:induction false} SameAhead(s: Sched, s': Sched, q: seq<Tid>, t: Tid)
    requires forall x :: Th(s', x).state == LockWait <==> Th(s, x).state == LockWait
    ensures Ahead(s', q, t) == Ahead(s, q, t)
  {
    if q != [] && q[0] != t {
      SameAhead(s, s', q[1..], t);
    }
  }

  lemma {:induction false} AheadAppended(s: Sched, s': Sched, q: seq<Tid>, t: Tid, x: Tid)
    requires t in q && x !in q
    requires forall y :: y != x ==> (Th(s', y).state == LockWait <==> Th(s, y).state == LockWait)
    ensures Ahead(s', q + [x], t) == Ahead(s, q, t)
  {
    assert q == [q[0]] + q[1..];
    assert (q + [x])[0] == q[0] && (q + [x])[1..] == q[1..] + [x];
    if q[0] != t {
      AheadAppended(s, s', q[1..], t, x);
    }
  }

  lemma {:induction false} AheadWithout(s: Sched, q: seq<Tid>, t: Tid, x: Tid)
    requires x != t && Th(s, x).state != LockWait
    ensures Ahead(s, Without(q, x), t) == Ahead(s, q, t)
  {
    if q != [] && q[0] != x && q[0] != t {
      AheadWithout(s, q[1..], t, x);
    }
  }

  /** One thread that waited no longer does. */
  lemma {:induction false} AheadWoken(s: Sched, s': Sched, q: seq<Tid>, t: Tid, x: Tid)
    requires x != t && Th(s', x).state != LockWait
    requires forall y :: y != x ==> (Th(s', y).state == LockWait <==> Th(s, y).state == LockWait)
    ensures Ahead(s', q, t) <= Ahead(s, q, t)
  {
    if q != [] && q[0] != t {
      AheadWoken(s, s', q[1..], t, x);
    }
  }

  /** The first waiter is ahead of every other. */
  lemma {:induction false} AheadOfFirst(s: Sched, s': Sched, q: seq<Tid>, t: Tid)
    requires Distinct(q) && t in q && Th(s, t).state == LockWait
    requires var i := FirstWaiter(s, q); i < |q| && q[i] != t && Th(s', q[i]).state != LockWait
    requires var i := FirstWaiter(s, q); i < |q| && forall y :: y != q[i] ==> (Th(s', y).state == LockWait <==> Th(s, y).state == LockWait)
    ensures Ahead(s', q, t) == Ahead(s, q, t) - 1
  {
    DistinctTail(q);
    if Th(s, q[0]).state == LockWait {
      assert FirstWaiter(s, q) == 0;
      SameButFirst(s, s', q[1..], t, q[0]);
    } else {
      assert FirstWaiter(s, q) == 1 + FirstWaiter(s, q[1..]);
      AheadOfFirst(s, s', q[1..], t);
    }
  }

  lemma {:induction false} SameButFirst(s: Sched, s': Sched, q: seq<Tid>, t: Tid, x: Tid)
    requires x !in q
    requires forall y :: y != x ==> (Th(s', y).state == LockWait <==> Th(s, y).state == LockWait)
    ensures Ahead(s', q, t) == Ahead(s, q, t)
  {
    if q != [] && q[0] != t {
      SameButFirst(s, s', q[1..], t, x);
    }
  }

  // ---- which steps touch the waiters of a mutex

  lemma ScheduleSame(s: Sched)
    requires RunOk(s) && ThreadsOk(s) && Th(s, s.idle).at == InIdle
    ensures SameLockWait(s, Schedule(s))
  {
    assert StateFits(s.threads[s.idle]);
    if s.runq != [] {
      assert s.runq[0] in s.runq;
    }
  }

  lemma SignalSame(s: Sched, q: seq<Tid>, broadcast: bool)
    ensures SameLockWait(s, SignalFrom(s, q, broadcast))
    decreases |q|
  {
    if q != [] {
      if Th(s, q[0]).state != CondWait {
        SignalSame(s, q[1..], broadcast);
      } else if broadcast {
        SignalSame(MakeRunnable(s, q[0]), q[1..], true);
      }
    }
  }

  lemma CheckClockSame(s: Sched, now: int)
    requires Quiet(s) && OneRuns(s)
    ensures SameLockWait(s, CheckClock(s, now))
  {
    ClockIsIrrelevant(s, now);
    ExpireEffect(s.(lastClock := now), now);
    GoneIsAsleep(s, now);
    forall t
      ensures Th(s, t).onSleepQ ==> Th(s, t).state != LockWait
    {
      assert t in s.threads ==> FlagsFit(s.threads[t]);
    }
  }

  lemma MakeRunnableSame(s: Sched, t: Tid)
    requires Th(s, t).state != LockWait
    ensures SameLockWait(s, MakeRunnable(s, t))
  {
  }

  lemma DispatchOneSame(s: Sched, t: Tid)
    requires Th(s, t).state != LockWait
    ensures SameLockWait(s, DispatchOne(s, t))
  {
    if ToNotify(s, t) {
      var pds := WithRevents(s.ep, PdsOf(s, t));
      var s1 := SetTh(s, t, Th(s, t).(at := InPoll(pds, false))).(ioq := Without(s.ioq, t), ep := DelAll(s.ep, pds));
      MakeRunnableSame(s1, t);
    }
  }

  lemma {:induction false} DispatchAllSame(s: Sched, q: seq<Tid>)
    requires forall t :: t in q ==> Th(s, t).state != LockWait
    ensures SameLockWait(s, DispatchAll(s, q))
  {
    if q != [] {
      DispatchAllSame(s, q[..|q| - 1]);
      assert q[|q| - 1] in q;
      DispatchOneSame(DispatchAll(s, q[..|q| - 1]), q[|q| - 1]);
    }
  }

  lemma SameTransitive(s: Sched, s1: Sched, s2: Sched)
    requires SameLockWait(s, s1) && SameLockWait(s1, s2)
    ensures SameLockWait(s, s2)
  {
  }

  lemma DispatchSame(s: Sched, fired: seq<Fired>)
    requires Inv(s) && s.current == s.idle
    ensures SameLockWait(s, Dispatch(s, fired))
  {
    IoqWaitsWhenIdle(s);
    var s1 := s.(ep := Mark(s.ep, fired));
    DispatchAllSame(s1, s.ioq);
    var s2 := DispatchAll(s1, s.ioq);
    assert forall t :: Th(s1, t) == Th(s, t) && Th(s2.(ep := Finish(s2.ep, fired)), t) == Th(s2, t);
  }

  lemma IdleParkSame(s: Sched)
    requires Quiet(s) && OneRuns(s) && s.current == s.idle
    ensures SameLockWait(s, Schedule(Park(s, Runnable, InIdle)))
  {
    assert StateFits(s.threads[s.idle]);
    IdleParkQueues(s, Park(s, Runnable, InIdle));
    ParkedSame(s, Park(s, Runnable, InIdle));
  }

  lemma IdleSame(s: Sched, now: int, fired: seq<Fired>)
    requires Inv(s) && s.current == s.idle && MayFire(s.ep, fired)
    ensures SameLockWait(s, IdleRound(s, now, fired))
  {
    if s.activeCount > 0 {
      DispatchKeeps(s, fired);
      var s1 := Dispatch(s, fired);
      DispatchSame(s, fired);
      CheckClockSame(s1, now);
      CheckClockKeeps(s1, now);
      var s2 := CheckClock(s1, now);
      SameTransitive(s, s1, s2);
      ClockIsIrrelevant(s1, now);
      ExpireFacts(s1.(lastClock := now), now);
      IdleParkSame(s2);
      SameTransitive(s, s2, IdleRound(s, now, fired));
    }
  }

  /** The running thread is parked in a state other than LOCK_WAIT. */
  lemma ParkedSame(s: Sched, s': Sched)
    requires OneRuns(s) && RunOk(s') && s'.idle in s'.threads && Th(s', s'.idle).state in {Runnable, Running}
    requires s'.lockq == s.lockq && s'.owner == s.owner
    requires Th(s', s.current).state != LockWait
    requires forall t :: t != s.current ==> Th(s', t).state == Th(s, t).state
    ensures SameLockWait(s, Schedule(s'))
  {
    if s'.runq != [] {
      assert s'.runq[0] in s'.runq;
    }
  }

  /** A step that neither locks, unlocks nor interrupts, and does not return from a lock. */
  predicate LeavesLocks(s: Sched, step: Step) {
    && !step.DoLock? && !step.DoUnlock? && !step.DoTryLock? && !step.DoInterrupt?
    && !(step.DoResume? && Th(s, s.current).at.InLock?)
  }

  /** The running thread blocks in a state other than LOCK_WAIT. */
  lemma BlockedSame(s: Sched, s': Sched, timeout: Option<nat>)
    requires Inv(s) && s.current != s.idle && s'.runq == s.runq && s'.idle == s.idle
    requires s'.threads == s.threads[s.current := Th(s', s.current)]
    requires s'.lockq == s.lockq && s'.owner == s.owner
    requires IsWaiting(Th(s', s.current).state) && Th(s', s.current).state != LockWait
    ensures SameLockWait(s, Schedule(AddSleepQIf(s', s.current, timeout)))
  {
    AddSleepQIfFacts(s', s.current, timeout);
    var s2 := AddSleepQIf(s', s.current, timeout);
    RunAfterPark(s, s2);
    ParkedSame(s, s2);
  }

  lemma WaitSame(s: Sched, c: CondId, timeout: Option<nat>, at: Resume)
    requires Inv(s) && UserRuns(s) && at != InIdle
    ensures SameLockWait(s, Wait(s, c, timeout, at).0)
  {
    if !Th(s, s.current).interrupt {
      var s1 := Park(s, CondWait, at);
      BlockedSame(s, s1.(condq := s1.condq[c := CondQ(s1, c) + [s.current]]), timeout);
    }
  }

  /** The run queue is right after the running thread was parked in a waiting state. */
  lemma RunAfterPark(s: Sched, s': Sched)
    requires Inv(s) && s.current != s.idle && s'.runq == s.runq && s'.idle == s.idle && s'.threads.Keys == s.threads.Keys
    requires IsWaiting(Th(s', s.current).state)
    requires forall t :: t != s.current ==> Th(s', t).state == Th(s, t).state
    ensures RunOk(s') && s'.idle in s'.threads && Th(s', s'.idle).state in {Runnable, Running}
  {
    assert StateFits(s.threads[s.idle]);
  }

  lemma PollSame(s: Sched, pds: seq<Pollfd>, timeout: Option<nat>, refused: set<int>)
    requires Inv(s) && UserRuns(s)
    ensures SameLockWait(s, Poll(s, pds, timeout, refused).0)
  {
    var (ep, r) := AddPollset(s.ep, pds, refused);
    if !Th(s, s.current).interrupt && r == Added {
      BlockedSame(s, Park(s, IoWait, InPoll(pds, true)).(ep := ep, ioq := s.ioq + [s.current]), timeout);
    }
  }

  lemma USleepSame(s: Sched, timeout: Option<nat>)
    requires Inv(s) && UserRuns(s)
    ensures SameLockWait(s, USleep(s, timeout).0)
  {
    if !Th(s, s.current).interrupt {
      BlockedSame(s, Park(s, if timeout.Some? then Sleeping else Suspended, InSleep), timeout);
    }
  }

  lemma YieldSame(s: Sched, now: int)
    requires Inv(s) && UserRuns(s)
    ensures SameLockWait(s, Yield(s, now).0)
  {
    CheckClockSame(s, now);
    CheckClockKeeps(s, now);
    ClockIsIrrelevant(s, now);
    ExpireFacts(s.(lastClock := now), now);
    var s1 := CheckClock(s, now);
    if s1.runq != [] {
      YieldParkSame(s1);
      SameTransitive(s, s1, Yield(s, now).0);
    }
  }

  lemma YieldParkSame(s: Sched)
    requires Quiet(s) && OneRuns(s) && UserRuns(s)
    ensures SameLockWait(s, Schedule(Park(s, Runnable, InYield).(runq := s.runq + [s.current])))
  {
    RunningThread(s);
    var s' := Park(s, Runnable, InYield).(runq := s.runq + [s.current]);
    YieldQueues(s, s', Th(s', s.current));
    assert StateFits(s.threads[s.idle]);
    ParkedSame(s, s');
  }

  lemma JoinLoopSame(s: Sched, x: Tid)
    requires Inv(s) && UserRuns(s)
    ensures SameLockWait(s, JoinLoop(s, x).0)
  {
    if Th(s, x).state != Zombie {
      WaitSame(s, Term(x), None, InJoin(x));
    }
  }

  lemma VanishSame(s: Sched, s': Sched)
    requires Quiet(s) && OneRuns(s) && s.current != s.idle && HoldsNothing(s)
    requires Th(s, s.current).at in {Active, InExit}
    requires s' == s.(threads := s.threads - {s.current}, activeCount := s'.activeCount)
    ensures SameLockWait(s, Schedule(s'))
  {
    assert StateFits(s.threads[s.idle]) && StateFits(s.threads[s.current]) && FlagsFit(s.threads[s.current]);
    VanishQueues(s, s');
    ParkedSame(s, s');
  }

  lemma ZombifiedSame(s: Sched)
    requires Th(s, s.current).state == Running
    ensures SameLockWait(s, Zombified(s))
  {
  }

  lemma ExitJoinableSame(s: Sched, s1: Sched, s2: Sched)
    requires Inv(s) && UserRuns(s) && HoldsNothing(s) && Th(s, s.current).joinable
    requires s1 == Zombified(s) && s2 == Signal(s1, Term(s.current), false)
    ensures SameLockWait(s, Schedule(s2))
  {
    ZombieParks(s, s1, s2);
    ZombifiedSame(s);
    SignalSame(s1, CondQ(s1, Term(s.current)), false);
    SameTransitive(s, s1, s2);
    assert StateFits(s2.threads[s2.idle]);
    ScheduleSame(s2);
    SameTransitive(s, s2, Schedule(s2));
  }

  lemma ExitSame(s: Sched)
    requires Inv(s) && UserRuns(s) && HoldsNothing(s)
    ensures SameLockWait(s, Exit(s))
  {
    if Th(s, s.current).joinable {
      ExitJoinableKeeps(s);
      ExitJoinableSame(s, Zombified(s), Signal(Zombified(s), Term(s.current), false));
    } else {
      VanishSame(s, Vanish(s.(activeCount := s.activeCount - 1)));
    }
  }

  lemma ResumedSame(s: Sched)
    requires Inv(s) && s.current != s.idle && Th(s, s.current).at != Active && !s.exited
    requires !Th(s, s.current).at.InLock?
    ensures SameLockWait(s, Resumed(s).0)
  {
    match Th(s, s.current).at
    case InExit => VanishSame(s, Vanish(s));
    case InJoin(x) => JoinReturnSame(s);
    case InCond(c) => AfterWaitSame(s, c);
    case _ => PlainReturnSame(s);
  }

  lemma ContinueSame(s: Sched, s1: Sched)
    requires OneRuns(s) && s1.threads == s.threads && s1.current == s.current && s1.lockq == s.lockq && s1.owner == s.owner
    ensures SameLockWait(s, Continue(TakeInterrupt(s1))) && SameLockWait(s, Continue(s1))
  {
  }

  lemma PlainReturnSame(s: Sched)
    requires OneRuns(s)
    requires var at := Th(s, s.current).at; !at.InLock? && !at.InExit? && !at.InJoin? && !at.InCond?
    ensures SameLockWait(s, Resumed(s).0)
  {
    match Th(s, s.current).at
    case InPoll(pds, true) => ContinueSame(s, s.(ioq := Without(s.ioq, s.current), ep := DelAll(s.ep, pds)));
    case _ => ContinueSame(s, s);
  }

  lemma AfterWaitSame(s: Sched, c: CondId)
    requires OneRuns(s)
    ensures SameLockWait(s, AfterWait(s, c).0)
  {
  }

  lemma ReapSame(s: Sched, x: Tid)
    requires Th(s, x).state == Zombie
    ensures SameLockWait(s, Reap(s, x))
  {
  }

  lemma JoinReturnSame(s: Sched)
    requires Inv(s) && s.current != s.idle && Th(s, s.current).at.InJoin?
    ensures SameLockWait(s, Resumed(s).0)
  {
    var x := Th(s, s.current).at.target;
    var s1 := AfterWait(s, Term(x)).0;
    AfterWaitSame(s, Term(x));
    if !Th(s, s.current).interrupt {
      JoinerFindsZombie(s);
      ReapSame(s1, x);
      SameTransitive(s, s1, Reap(s1, x));
    }
  }

  lemma StepSame(s: Sched, step: Step)
    requires Inv(s) && Enabled(s, step) && LeavesLocks(s, step)
    ensures SameLockWait(s, Apply(s, step).0)
  {
    match step
    case DoCreate(_) => assert s.nextTid !in s.threads;
    case DoExit => ExitSame(s);
    case DoJoin(x) =>
      if Th(s, x).joinable && s.current != x && CondQ(s, Term(x)) == [] {
        JoinLoopSame(s, x);
      }
    case DoPoll(pds, timeout, refused) => PollSame(s, pds, timeout, refused);
    case DoUSleep(timeout) => USleepSame(s, timeout);
    case DoCondWait(c, timeout) => WaitSame(s, User(c), timeout, InCond(User(c)));
    case DoCondSignal(c, broadcast) => SignalSame(s, CondQ(s, User(c)), broadcast);
    case DoYield(now) => YieldSame(s, now);
    case DoIdle(now, fired) => IdleSame(s, now, fired);
    case DoResume => ResumedSame(s);
  }

  // ---- first come, first served

  /** Thread t waits for mutex m. */
  predicate WaitsForMutex(s: Sched, t: Tid, m: nat) {
    Th(s, t).state == LockWait && Th(s, t).at == InLock(m)
  }

  predicate HandsOver(s: Sched, step: Step, m: nat) {
    step == DoUnlock(m) && m in s.owner && s.owner[m] == s.current
  }

  /** The places where threads resume do not change while they are in LOCK_WAIT. */
  lemma StillInQueue(s: Sched, s': Sched, t: Tid, m: nat)
    requires Inv(s) && Inv(s') && WaitsForMutex(s, t, m)
    requires Th(s', t).state == LockWait && t in LockQ(s', m)
    ensures WaitsForMutex(s', t, m)
  {
  }

  /** The waiter waits on, behind no more threads than before, for a mutex with the same owner. */
  ghost predicate KeepsPlace(s: Sched, s': Sched, t: Tid, m: nat) {
    && m in s.owner && m in s'.owner && s'.owner[m] == s.owner[m]
    && WaitsForMutex(s', t, m)
    && Ahead(s', LockQ(s', m), t) <= Ahead(s, LockQ(s, m), t)
  }

  lemma StepFifoOther(s: Sched, step: Step, t: Tid, m: nat)
    requires Inv(s) && Enabled(s, step) && WaitsForMutex(s, t, m) && LeavesLocks(s, step)
    requires m in s.owner
    ensures KeepsPlace(s, Apply(s, step).0, t, m)
  {
    var s' := Apply(s, step).0;
    StepSame(s, step);
    StepKeeps(s, step);
    assert t in QueueOf(s.lockq, m);
    StillInQueue(s, s', t, m);
    SameAhead(s, s', LockQ(s, m), t);
  }

  lemma StepFifoLock(s: Sched, m': nat, t: Tid, m: nat)
    requires Inv(s) && UserRuns(s) && WaitsForMutex(s, t, m)
    ensures KeepsPlace(s, Lock(s, m').0, t, m)
  {
    assert t in s.threads && LockFits(s, t);
    assert t in QueueOf(s.lockq, m);
    RunningThread(s);
    if Lock(s, m').1 == Blocked {
      LockBlockedEffect(s, m');
      AppendedBehind(s, Lock(s, m').0, m', t, m);
    } else {
      NotBlockedFifo(s, m', t, m);
    }
  }

  lemma AppendedBehind(s: Sched, s': Sched, m': nat, t: Tid, m: nat)
    requires t in LockQ(s, m) && s.current !in LockQ(s, m)
    requires LockQ(s', m') == LockQ(s, m') + [s.current]
    requires forall x :: x != m' ==> LockQ(s', x) == LockQ(s, x)
    requires forall y :: y != s.current ==> (Th(s', y).state == LockWait <==> Th(s, y).state == LockWait)
    ensures Ahead(s', LockQ(s', m), t) == Ahead(s, LockQ(s, m), t)
  {
    if m' == m {
      AheadAppended(s, s', LockQ(s, m), t, s.current);
    } else {
      SameButFirst(s, s', LockQ(s, m), t, s.current);
    }
  }

  lemma NotBlockedFifo(s: Sched, m': nat, t: Tid, m: nat)
    requires WaitsForMutex(s, t, m) && m in s.owner && t != s.current && Th(s, s.current).state == Running
    requires Lock(s, m').1 != Blocked
    ensures KeepsPlace(s, Lock(s, m').0, t, m)
  {
    SameAhead(s, Lock(s, m').0, LockQ(s, m), t);
  }

  /** A caller of `st_mutex_lock` that must wait is appended to the queue; the other waiters are as before. */
  lemma LockBlockedEffect(s: Sched, m: nat)
    requires Inv(s) && UserRuns(s) && Lock(s, m).1 == Blocked
    ensures QueuedOn(s, Lock(s, m).0, m)
  {
    var s1 := Park(s, LockWait, InLock(m));
    var s2 := s1.(lockq := s1.lockq[m := LockQ(s1, m) + [s.current]]);
    LockParked(s, s2, m);
    QueuedThenSwitched(s, s2, m);
  }

  /** The running thread now waits at the end of the queue of m. */
  ghost predicate QueuedOn(s: Sched, s': Sched, m: nat) {
    && s'.owner == s.owner
    && LockQ(s', m) == LockQ(s, m) + [s.current]
    && (forall m' :: m' != m ==> LockQ(s', m') == LockQ(s, m'))
    && (forall y :: y != s.current ==> (Th(s', y).state == LockWait <==> Th(s, y).state == LockWait))
    && (forall y :: y != s.current && Th(s, y).state == LockWait ==> Th(s', y) == Th(s, y))
    && WaitsForMutex(s', s.current, m)
  }

  lemma LockParked(s: Sched, s2: Sched, m: nat)
    requires Inv(s) && UserRuns(s)
    requires s2 == s.(threads := s.threads[s.current := Th(s, s.current).(state := LockWait, at := InLock(m))],
                      lockq := s.lockq[m := LockQ(s, m) + [s.current]])
    ensures QueuedOn(s, s2, m) && RunOk(s2) && Th(s2, s2.idle).state == Runnable
  {
    RunningThread(s);
    assert StateFits(s.threads[s.idle]);
    LockParkedRunq(s, s2);
  }

  lemma LockParkedRunq(s: Sched, s2: Sched)
    requires RunOk(s) && s2.runq == s.runq && s2.idle == s.idle && Th(s, s.current).state == Running
    requires Th(s2, s.current).state == LockWait && forall t :: t != s.current ==> Th(s2, t) == Th(s, t)
    ensures RunOk(s2)
  {
  }

  lemma QueuedThenSwitched(s: Sched, s2: Sched, m: nat)
    requires QueuedOn(s, s2, m) && RunOk(s2) && Th(s2, s2.idle).state == Runnable
    ensures QueuedOn(s, Schedule(s2), m)
  {
    ScheduleAwake(s2);
  }

  lemma ScheduleAwake(s: Sched)
    requires RunOk(s) && Th(s, s.idle).state == Runnable
    ensures SameLockWait(s, Schedule(s))
    ensures forall t :: Th(s, t).state == LockWait ==> Th(Schedule(s), t) == Th(s, t)
  {
    if s.runq != [] {
      assert s.runq[0] in s.runq;
    }
  }

  lemma StepFifoTryLock(s: Sched, m': nat, t: Tid, m: nat)
    requires Inv(s) && UserRuns(s) && WaitsForMutex(s, t, m)
    ensures KeepsPlace(s, TryLock(s, m').0, t, m)
  {
    assert t in s.threads && LockFits(s, t);
    SameAhead(s, TryLock(s, m').0, LockQ(s, m), t);
  }

  lemma StepFifoInterrupt(s: Sched, x: Tid, t: Tid, m: nat)
    requires Inv(s) && UserRuns(s) && x in s.threads && x != s.idle && x != t && WaitsForMutex(s, t, m)
    requires m in s.owner
    ensures KeepsPlace(s, Interrupt(s, x), t, m)
  {
    assert StateFits(s.threads[x]);
    InterruptFifo(s, x, t, m);
  }

  lemma InterruptFifo(s: Sched, x: Tid, t: Tid, m: nat)
    requires x != t && WaitsForMutex(s, t, m)
    requires m in s.owner
    ensures KeepsPlace(s, Interrupt(s, x), t, m)
  {
    var s' := Interrupt(s, x);
    InterruptEffect(s, x);
    if Th(s, x).state == LockWait {
      AheadWoken(s, s', LockQ(s, m), t, x);
    } else {
      SameAhead(s, s', LockQ(s, m), t);
    }
  }

  lemma InterruptEffect(s: Sched, x: Tid)
    ensures var s' := Interrupt(s, x);
            && s'.owner == s.owner && s'.lockq == s.lockq
            && (forall y :: y != x ==> Th(s', y) == Th(s, y))
            && Th(s', x).state != LockWait
  {
    WakingFrame(SetTh(s, x, Th(s, x).(interrupt := true)), x);
  }

  lemma WakingFrame(s: Sched, x: Tid)
    ensures var s' := MakeRunnable(s, x);
            && s'.owner == s.owner && s'.lockq == s.lockq && Th(s', x).state == Runnable
            && forall y :: y != x ==> Th(s', y) == Th(s, y)
  {
  }

  lemma StepFifoReturn(s: Sched, t: Tid, m: nat)
    requires Inv(s) && s.current != s.idle && Th(s, s.current).at.InLock? && WaitsForMutex(s, t, m)
    requires m in s.owner
    ensures KeepsPlace(s, Resumed(s).0, t, m)
  {
    ReturnFifo(s, t, m);
  }

  lemma ReturnFifo(s: Sched, t: Tid, m: nat)
    requires Th(s, s.current).at.InLock? && Th(s, s.current).state == Running && WaitsForMutex(s, t, m)
    requires m in s.owner
    ensures KeepsPlace(s, Resumed(s).0, t, m)
  {
    var s' := Resumed(s).0;
    SameAhead(s, s', LockQ(s', m), t);
    if Th(s, s.current).at.mutex == m {
      AheadWithout(s, LockQ(s, m), t, s.current);
    }
  }

  /** An unlock hands the mutex to the first waiter: to t, or to a thread that is linked before t. */
  lemma StepFifoUnlock(s: Sched, m: nat, t: Tid)
    requires Inv(s) && UserRuns(s) && WaitsForMutex(s, t, m) && m in s.owner && s.owner[m] == s.current
    ensures var s' := Unlock(s, m).0; var q := LockQ(s, m);
            && m in s'.owner && LockQ(s', m) == q
            && (Ahead(s, q, t) == 0 ==> s'.owner[m] == t)
            && (Ahead(s, q, t) > 0 ==> WaitsForMutex(s', t, m) && Ahead(s', q, t) == Ahead(s, q, t) - 1
                                       && WaitsForMutex(s, s'.owner[m], m) && s'.owner[m] != t)
  {
    var q := QueueOf(s.lockq, m);
    var i := FirstWaiter(s, q);
    var s' := Unlock(s, m).0;
    assert t in q;
    var j :| 0 <= j < |q| && q[j] == t;
    assert i < |q|;
    assert q[i] in q;
    FirstIsAhead(s, q, t);
    if q[i] != t {
      AheadOfFirst(s, s', q, t);
    }
  }

  lemma {:induction false} FirstIsAhead(s: Sched, q: seq<Tid>, t: Tid)
    requires t in q && Th(s, t).state == LockWait
    ensures FirstWaiter(s, q) < |q|
    ensures Ahead(s, q, t) == 0 <==> q[FirstWaiter(s, q)] == t
  {
    assert q == [q[0]] + q[1..];
    if Th(s, q[0]).state != LockWait {
      FirstIsAhead(s, q[1..], t);
    }
  }

  lemma StepFifoOtherUnlock(s: Sched, m': nat, t: Tid, m: nat)
    requires Inv(s) && UserRuns(s) && WaitsForMutex(s, t, m) && !HandsOver(s, DoUnlock(m'), m)
    ensures KeepsPlace(s, Unlock(s, m').0, t, m)
  {
    assert t in s.threads && LockFits(s, t);
    OtherQueueApart(s, m', t, m);
    UnlockFifo(s, m', t, m);
  }

  /** The first waiter of another mutex is not in the queue of m. */
  lemma OtherQueueApart(s: Sched, m': nat, t: Tid, m: nat)
    requires LockOk(s) && WaitsForMutex(s, t, m)
    ensures var q := LockQ(s, m'); var i := FirstWaiter(s, q); i < |q| && m' != m ==> q[i] !in LockQ(s, m) && q[i] != t
  {
    var q := QueueOf(s.lockq, m');
    assert t in QueueOf(s.lockq, m);
    if FirstWaiter(s, q) < |q| {
      assert q[FirstWaiter(s, q)] in q;
    }
  }

  lemma UnlockFifo(s: Sched, m': nat, t: Tid, m: nat)
    requires WaitsForMutex(s, t, m) && m in s.owner && !HandsOver(s, DoUnlock(m'), m)
    requires var q := LockQ(s, m'); var i := FirstWaiter(s, q); i < |q| && m' != m ==> q[i] !in LockQ(s, m) && q[i] != t
    ensures KeepsPlace(s, Unlock(s, m').0, t, m)
  {
    var q := LockQ(s, m');
    var i := FirstWaiter(s, q);
    var s' := Unlock(s, m').0;
    if m' in s.owner && s.owner[m'] == s.current && i < |q| {
      SameButFirst(s, s', LockQ(s, m), t, q[i]);
    } else {
      SameAhead(s, s', LockQ(s, m), t);
    }
  }

  /**
    One step in the life of a waiter that is not interrupted. Only an unlock by the owner changes
    who holds the mutex; it goes to the waiter if no LOCK_WAIT thread is linked before it, and
    otherwise to one that is. No other step puts a thread ahead of the waiter.
   */
  lemma StepFifo(s: Sched, step: Step, t: Tid, m: nat)
    requires Inv(s) && Enabled(s, step) && WaitsForMutex(s, t, m) && step != DoInterrupt(t)
    ensures var s' := Apply(s, step).0;
            && m in s.owner && m in s'.owner
            && (HandsOver(s, step, m) ==>
                  if Ahead(s, LockQ(s, m), t) == 0 then s'.owner[m] == t
                  else WaitsForMutex(s', t, m) && Ahead(s', LockQ(s', m), t) == Ahead(s, LockQ(s, m), t) - 1
                       && WaitsForMutex(s, s'.owner[m], m) && s'.owner[m] != t)
            && (!HandsOver(s, step, m) ==>
                  WaitsForMutex(s', t, m) && s'.owner[m] == s.owner[m]
                  && Ahead(s', LockQ(s', m), t) <= Ahead(s, LockQ(s, m), t))
  {
    assert t in s.threads && LockFits(s, t);
    if HandsOver(s, step, m) {
      StepFifoUnlock(s, m, t);
    } else {
      StepKeepsPlace(s, step, t, m);
    }
  }

  lemma StepKeepsPlace(s: Sched, step: Step, t: Tid, m: nat)
    requires Inv(s) && Enabled(s, step) && WaitsForMutex(s, t, m) && step != DoInterrupt(t)
    requires !HandsOver(s, step, m) && m in s.owner
    ensures KeepsPlace(s, Apply(s, step).0, t, m)
  {
    if LeavesLocks(s, step) {
      StepFifoOther(s, step, t, m);
    } else {
      LockStepKeepsPlace(s, step, t, m);
    }
  }

  lemma LockStepKeepsPlace(s: Sched, step: Step, t: Tid, m: nat)
    requires Inv(s) && Enabled(s, step) && WaitsForMutex(s, t, m) && step != DoInterrupt(t)
    requires !HandsOver(s, step, m) && m in s.owner && !LeavesLocks(s, step)
    ensures KeepsPlace(s, Apply(s, step).0, t, m)
  {
    match step
    case DoLock(m') => StepFifoLock(s, m', t, m);
    case DoTryLock(m') => StepFifoTryLock(s, m', t, m);
    case DoInterrupt(x) => StepFifoInterrupt(s, x, t, m);
    case DoUnlock(m') => StepFifoOtherUnlock(s, m', t, m);
    case DoResume => StepFifoReturn(s, t, m);
  }

  /** The number of steps among the first n that hand mutex m over. */
  ghost function HandOvers(states: seq<Sched>, steps: seq<Step>, m: nat, n: nat): nat
    requires |states| == |steps| + 1 && n <= |steps|
  {
    if n == 0 then 0
    else HandOvers(states, steps, m, n - 1) + (if HandsOver(states[n - 1], steps[n - 1], m) then 1 else 0)
  }

  /** After n steps the waiter has owned the mutex, or fewer threads are ahead of it by the number of unlocks. */
  lemma {:induction false} WaiterAdvances(states: seq<Sched>, steps: seq<Step>, t: Tid, m: nat, n: nat)
    requires IsRun(states, steps) && Inv(states[0]) && WaitsForMutex(states[0], t, m) && n <= |steps|
    requires forall i :: 0 <= i < |steps| ==> steps[i] != DoInterrupt(t)
    ensures (exists i :: 0 <= i <= n && m in states[i].owner && states[i].owner[m] == t)
            || (WaitsForMutex(states[n], t, m)
                && Ahead(states[n], LockQ(states[n], m), t) + HandOvers(states, steps, m, n) <= Ahead(states[0], LockQ(states[0], m), t))
  {
    if n > 0 {
      WaiterAdvances(states, steps, t, m, n - 1);
      if WaitsForMutex(states[n - 1], t, m) {
        RunKeeps(states, steps, n - 1);
        StepFifo(states[n - 1], steps[n - 1], t, m);
      }
    }
  }

  /**
    Mutex hand-off is first come, first served: a waiter that is not interrupted and has k
    LOCK_WAIT threads linked before it owns the mutex by the time of the (k+1)st unlock.
   */
  lemma WaiterOwnsInTurn(states: seq<Sched>, steps: seq<Step>, t: Tid, m: nat)
    requires IsRun(states, steps) && Inv(states[0]) && WaitsForMutex(states[0], t, m)
    requires forall i :: 0 <= i < |steps| ==> steps[i] != DoInterrupt(t)
    requires HandOvers(states, steps, m, |steps|) >= Ahead(states[0], LockQ(states[0], m), t) + 1
    ensures exists i :: 0 <= i <= |steps| && m in states[i].owner && states[i].owner[m] == t
  {
    WaiterAdvances(states, steps, t, m, |steps|);
  }
}
