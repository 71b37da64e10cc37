/**
  Runs of the scheduler: every library call a running thread may make, the resumption of the
  thread that was switched in, and the rounds of the idle thread, in any order.
 */
module SchedRuns {
  import opened Wrappers
  import opened TimeoutHeapSpec
  import opened Epoll
  import opened Sched
  import opened SchedInv

  datatype Step =
    | DoCreate(joinable: bool)
    | DoExit
    | DoJoin(target: Tid)
    | DoPoll(pds: seq<Pollfd>, timeout: Option<nat>, refused: set<int>)
    | DoUSleep(timeout: Option<nat>)
    | DoCondWait(cond: nat, timeout: Option<nat>)
    | DoCondSignal(cond: nat, broadcast: bool)
    | DoLock(mutex: nat)
    | DoUnlock(mutex: nat)
    | DoTryLock(mutex: nat)
    | DoYield(now: int)
    | DoInterrupt(target: Tid)
    | DoIdle(now: int, fired: seq<Fired>)
    | DoResume

  /**
    What a program may do: handles of threads that exist, and no exit while a mutex is held.
    What epoll_wait may report is decided by the registrations.
   */
  ghost predicate Enabled(s: Sched, step: Step) {
    match step
    case DoIdle(_, fired) => !s.exited && s.current == s.idle && MayFire(s.ep, fired)
    case DoResume => !s.exited && s.current != s.idle && Th(s, s.current).at != Active
    case DoExit => UserRuns(s) && HoldsNothing(s)
    case DoJoin(x) => UserRuns(s) && x in s.threads
    case DoInterrupt(t) => UserRuns(s) && t in s.threads && t != s.idle
    case _ => UserRuns(s)
  }

  function Apply(s: Sched, step: Step): (Sched, Result) {
    match step
    case DoCreate(joinable) => (Create(s, joinable), OK)
    case DoExit => (Exit(s), Blocked)
    case DoJoin(x) => Join(s, x)
    case DoPoll(pds, timeout, refused) => Poll(s, pds, timeout, refused)
    case DoUSleep(timeout) => USleep(s, timeout)
    case DoCondWait(c, timeout) => Wait(s, User(c), timeout, InCond(User(c)))
    case DoCondSignal(c, broadcast) => (Signal(s, User(c), broadcast), OK)
    case DoLock(m) => Lock(s, m)
    case DoUnlock(m) => Unlock(s, m)
    case DoTryLock(m) => TryLock(s, m)
    case DoYield(now) => Yield(s, now)
    case DoInterrupt(t) => (Interrupt(s, t), OK)
    case DoIdle(now, fired) => (IdleRound(s, now, fired), Blocked)
    case DoResume => Resumed(s)
  }

  /** `st_init`: the idle thread is ready and the primordial thread runs. */
  function Init(clock: int): Sched {
    Sched(map[0 := Thread(Runnable, false, false, false, 0, false, InIdle),
              1 := Thread(Running, false, false, false, 0, false, Active)],
          1, 0, [], [], [], [], clock, map[], map[], map[], 1, 2, EpollData(map[], map[], 0), false)
  }

  lemma InitQueues(clock: int)
    ensures QueuesOk(Init(clock))
  {
  }

  lemma InitThreads(clock: int)
    ensures var s := Init(clock); ThreadsOk(s) && LocksFit(s) && JoinsFit(s) && s.activeCount == |ActiveSet(s)| && OneRuns(s)
  {
    assert ActiveSet(Init(clock)) == {1};
  }

  lemma InitKeeps(clock: int)
    ensures Inv(Init(clock))
  {
    InitQueues(clock);
    InitThreads(clock);
    assert EpollOk(Init(clock));
  }

  lemma StepKeeps(s: Sched, step: Step)
    requires Inv(s) && Enabled(s, step)
    ensures Inv(Apply(s, step).0)
  {
    match step
    case DoCreate(joinable) => CreateKeeps(s, joinable);
    case DoExit => ExitKeeps(s);
    case DoJoin(x) => JoinKeeps(s, x);
    case DoPoll(pds, timeout, refused) => PollKeeps(s, pds, timeout, refused);
    case DoUSleep(timeout) => USleepKeeps(s, timeout);
    case DoCondWait(c, timeout) => WaitKeeps(s, User(c), timeout, InCond(User(c)));
    case DoCondSignal(c, broadcast) => UserSignalKeeps(s, c, broadcast);
    case DoLock(m) => LockKeeps(s, m);
    case DoUnlock(m) => UnlockKeeps(s, m);
    case DoTryLock(m) => TryLockKeeps(s, m);
    case DoYield(now) => YieldKeeps(s, now);
    case DoInterrupt(t) => InterruptKeeps(s, t);
    case DoIdle(now, fired) => IdleRoundKeeps(s, now, fired);
    case DoResume => ResumedKeeps(s);
  }

  lemma UserSignalKeeps(s: Sched, c: nat, broadcast: bool)
    requires Inv(s) && UserRuns(s)
    ensures Inv(Signal(s, User(c), broadcast))
  {
    var q := QueueOf(s.condq, User(c));
    forall t | t in q
      ensures Th(s, t).at.InCond?
    {
      assert WaitsFor(Th(s, t).at, User(c));
    }
    SignalKeeps(s, q, broadcast);
    SignalFacts(s, q, broadcast);
  }

  lemma {:induction false} SignalFacts(s: Sched, q: seq<Tid>, broadcast: bool)
    ensures var s' := SignalFrom(s, q, broadcast); s'.current == s.current && s'.idle == s.idle
    decreases |q|
  {
    if q != [] {
      if Th(s, q[0]).state != CondWait {
        SignalFacts(s, q[1..], broadcast);
      } else if broadcast {
        SignalFacts(MakeRunnable(s, q[0]), q[1..], true);
      }
    }
  }

  /** A run: the states, and the step from each to the next. */
  ghost predicate IsRun(states: seq<Sched>, steps: seq<Step>) {
    && |states| == |steps| + 1
    && forall i :: 0 <= i < |steps| ==> Enabled(states[i], steps[i]) && states[i + 1] == Apply(states[i], steps[i]).0
  }

  /** The invariant holds in every state of every run. */
  lemma {:induction false} RunKeeps(states: seq<Sched>, steps: seq<Step>, n: nat)
    requires IsRun(states, steps) && Inv(states[0]) && n < |states|
    ensures Inv(states[n])
  {
    if n > 0 {
      RunKeeps(states, steps, n - 1);
      StepKeeps(states[n - 1], steps[n - 1]);
    }
  }

  /**
    The queues of every reachable state: exactly one thread runs; a live thread other than the
    idle thread is runnable iff it is on the run queue, and then exactly once; it is a zombie
    iff it is on the zombie queue, once; it is marked as sleeping iff it is in the timeout heap,
    once and with its due time, and then it waits for I/O, a condition or time; the idle thread
    is on no queue.
   */
  lemma ReachableQueues(clock: int, states: seq<Sched>, steps: seq<Step>, n: nat)
    requires IsRun(states, steps) && states[0] == Init(clock) && n < |states|
    ensures var s := states[n];
            && (forall t :: t in s.threads ==> (s.threads[t].state == Running <==> t == s.current)) && s.current in s.threads
            && (forall t :: t in s.threads && t != s.idle ==>
                  multiset(s.runq)[t] == if s.threads[t].state == Runnable then 1 else 0)
            && (forall t :: t in s.threads ==> multiset(s.zombieq)[t] == if s.threads[t].state == Zombie then 1 else 0)
            && (forall t :: t in s.threads && s.threads[t].onSleepQ ==>
                  multiset(s.sleepq)[Timed(t, s.threads[t].due)] == 1 && s.threads[t].state in {IoWait, CondWait, Sleeping})
            && (forall t, due :: Timed(t, due) in s.sleepq ==> t in s.threads && s.threads[t].onSleepQ && s.threads[t].due == due)
            && s.idle !in s.runq && s.idle !in s.zombieq && s.idle !in s.ioq
            && Ordered(s.sleepq)
  {
    InitKeeps(clock);
    RunKeeps(states, steps, n);
    var s := states[n];
    forall t
      ensures multiset(s.runq)[t] == if t in s.runq then 1 else 0
      ensures multiset(s.zombieq)[t] == if t in s.zombieq then 1 else 0
    {
      DistinctOnce(s.runq, t);
      DistinctOnce(s.zombieq, t);
    }
    forall t | t in s.threads && s.threads[t].onSleepQ
      ensures multiset(s.sleepq)[Timed(t, s.threads[t].due)] == 1
    {
      assert Timed(t, s.threads[t].due) in s.sleepq;
    }
    assert StateFits(s.threads[s.idle]);
  }

  lemma {:induction false} DistinctOnce(q: seq<Tid>, t: Tid)
    requires Distinct(q)
    ensures multiset(q)[t] == if t in q then 1 else 0
  {
    if q != [] {
      DistinctTail(q);
      DistinctOnce(q[1..], t);
      assert q == [q[0]] + q[1..];
    }
  }

  /** Whenever the idle thread runs, nobody is ready: every other live thread waits or is a zombie. */
  lemma IdleRunsAlone(states: seq<Sched>, steps: seq<Step>, n: nat)
    requires IsRun(states, steps) && Inv(states[0]) && n < |states| && states[n].current == states[n].idle
    ensures var s := states[n];
            && s.runq == []
            && forall t :: t in s.threads && t != s.idle ==> IsWaiting(s.threads[t].state) || s.threads[t].state == Zombie
  {
    RunKeeps(states, steps, n);
    IoqWaitsWhenIdle(states[n]);
  }
}
