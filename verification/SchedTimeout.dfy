/**
  Waiting on a condition variable with a time-out: a waiter reports a time-out iff the clock woke it.
 */
module SchedTimeout {
  import opened Wrappers
  import opened TimeoutHeapSpec
  import opened Epoll
  import opened Sched
  import opened SchedInv
  import opened SchedRuns
  import opened SchedClock
  import opened SchedCond
  import opened SchedDispatch

  /** Thread t, which is ready, stays so until it is resumed; only an interrupt may still mark it. */
  ghost predicate StillReady(s: Sched, s': Sched, t: Tid) {
    var th, th' := Th(s, t), Th(s', t);
    IsReady(th'.state) && th' == th.(state := th'.state, interrupt := th'.interrupt)
  }

  /**
    What a step does to a thread other than the running one: a ready one stays ready, and a
    waiting one waits on or becomes ready, with the time-out mark iff `clock`.
   */
  ghost predicate Outcome(s: Sched, s': Sched, t: Tid, clock: bool) {
    if IsReady(Th(s, t).state) then StillReady(s, s', t)
    else Th(s', t) == Th(s, t)
         || (IsReady(Th(s', t).state) && Th(s', t).at == Th(s, t).at && Th(s', t).timedOut == clock)
  }

  /** A thread that waits on a condition, or is ready, and is not the running one. */
  predicate Bystander(s: Sched, t: Tid) {
    && t in s.threads && t != s.current && t != s.idle
    && (IsReady(Th(s, t).state) || (Th(s, t).state == CondWait && Th(s, t).at.InCond? && !Th(s, t).timedOut))
  }

  lemma ScheduleSpares(s: Sched, s1: Sched, t: Tid, clock: bool)
    requires Outcome(s, s1, t, clock) && t != s1.idle
    requires s1.runq != [] && s1.runq[0] == t ==> IsReady(Th(s1, t).state)
    ensures Outcome(s, Schedule(s1), t, clock)
  {
  }

  lemma BlockedSpares(s: Sched, s1: Sched, timeout: Option<nat>, t: Tid)
    requires RunOk(s) && t != s.current && t != s.idle
    requires s1.threads == s.threads[s.current := Th(s1, s.current)] && s1.runq == s.runq && s1.idle == s.idle
    ensures Outcome(s, Schedule(AddSleepQIf(s1, s.current, timeout)), t, false)
  {
    var s2 := AddSleepQIf(s1, s.current, timeout);
    AddSleepQIfFacts(s1, s.current, timeout);
    assert s2.runq != [] ==> s2.runq[0] in s.runq;
    ScheduleSpares(s, s2, t, false);
  }

  lemma WaitSpares(s: Sched, c: CondId, timeout: Option<nat>, at: Resume, t: Tid)
    requires RunOk(s) && s.current in s.threads && Bystander(s, t)
    ensures Outcome(s, Wait(s, c, timeout, at).0, t, false)
  {
    if !Th(s, s.current).interrupt {
      var s1 := Park(s, CondWait, at);
      BlockedSpares(s, s1.(condq := s1.condq[c := CondQ(s1, c) + [s.current]]), timeout, t);
    }
  }

  lemma PollSpares(s: Sched, pds: seq<Pollfd>, timeout: Option<nat>, refused: set<int>, t: Tid)
    requires RunOk(s) && s.current in s.threads && Bystander(s, t)
    ensures Outcome(s, Poll(s, pds, timeout, refused).0, t, false)
  {
    var (ep, r) := AddPollset(s.ep, pds, refused);
    if !Th(s, s.current).interrupt && r == Added {
      BlockedSpares(s, Park(s, IoWait, InPoll(pds, true)).(ep := ep, ioq := s.ioq + [s.current]), timeout, t);
    }
  }

  lemma USleepSpares(s: Sched, timeout: Option<nat>, t: Tid)
    requires RunOk(s) && s.current in s.threads && Bystander(s, t)
    ensures Outcome(s, USleep(s, timeout).0, t, false)
  {
    if !Th(s, s.current).interrupt {
      BlockedSpares(s, Park(s, if timeout.Some? then Sleeping else Suspended, InSleep), timeout, t);
    }
  }

  lemma LockSpares(s: Sched, m: nat, t: Tid)
    requires RunOk(s) && s.current in s.threads && Bystander(s, t)
    ensures Outcome(s, Lock(s, m).0, t, false)
  {
    if !Th(s, s.current).interrupt && m in s.owner && s.owner[m] != s.current {
      var s1 := Park(s, LockWait, InLock(m));
      BlockedSpares(s, s1.(lockq := s1.lockq[m := LockQ(s1, m) + [s.current]]), None, t);
    }
  }

  lemma UnlockSpares(s: Sched, m: nat, t: Tid)
    requires Bystander(s, t)
    ensures Outcome(s, Unlock(s, m).0, t, false)
  {
  }

  lemma InterruptSpares(s: Sched, x: Tid, t: Tid)
    requires Bystander(s, t) && SleepOk(s) && x in s.threads
    ensures Outcome(s, Interrupt(s, x), t, false)
  {
    var s1 := SetTh(s, x, Th(s, x).(interrupt := true));
    if Th(s, x).state == CondWait {
      SleepFrame(s, s1);
      MakeRunnableEffect(s1, x);
    } else if x != t {
      OthersUntouched(s1, x, t);
    }
  }

  lemma OthersUntouched(s: Sched, x: Tid, t: Tid)
    requires t != x
    ensures Th(MakeRunnable(s, x), t) == Th(s, t)
  {
  }

  lemma SignalSpares(s: Sched, c: CondId, broadcast: bool, t: Tid)
    requires SleepOk(s) && Distinct(CondQ(s, c)) && Bystander(s, t)
    requires forall x :: x in CondQ(s, c) ==> x in s.threads
    ensures Outcome(s, Signal(s, c, broadcast), t, false)
  {
    SignalWakes(s, CondQ(s, c), broadcast);
    WaitersIn(s, CondQ(s, c));
  }

  lemma QueuedAreThreads(s: Sched, c: CondId)
    requires CondOk(s)
    ensures Distinct(CondQ(s, c)) && forall x :: x in CondQ(s, c) ==> x in s.threads
  {
    forall x | x in CondQ(s, c)
      ensures x in s.threads
    {
      assert WaitsFor(Th(s, x).at, c);
    }
    assert Distinct(QueueOf(s.condq, c));
  }

  lemma ExitSpares(s: Sched, t: Tid)
    requires Inv(s) && UserRuns(s) && HoldsNothing(s) && Bystander(s, t)
    ensures Outcome(s, Exit(s), t, false)
  {
    if Th(s, s.current).joinable {
      ExitJoinableKeeps(s);
      ExitJoinableSpares(s, Zombified(s), Signal(Zombified(s), Term(s.current), false), t);
    } else {
      var s1 := Vanish(s.(activeCount := s.activeCount - 1));
      assert s1.runq != [] ==> s1.runq[0] in s.runq;
      ScheduleSpares(s, s1, t, false);
    }
  }

  lemma ExitJoinableSpares(s: Sched, s1: Sched, s2: Sched, t: Tid)
    requires Inv(s) && UserRuns(s) && HoldsNothing(s) && Bystander(s, t) && Th(s, s.current).joinable
    requires s1 == Zombified(s) && s2 == Signal(s1, Term(s.current), false)
    ensures Outcome(s, Schedule(s2), t, false)
  {
    ZombieParks(s, s1, s2);
    QueuedAreThreads(s, Term(s.current));
    ZombifiedSpares(s, s1, t);
    SignalSpares(s1, Term(s.current), false, t);
    SignalFacts(s1, CondQ(s1, Term(s.current)), false);
    SignalThenSchedule(s, s1, s2, t);
  }

  lemma ZombifiedSpares(s: Sched, s1: Sched, t: Tid)
    requires SleepOk(s) && Bystander(s, t) && s1 == Zombified(s) && s.current in s.threads
    ensures CondQ(s1, Term(s.current)) == CondQ(s, Term(s.current)) && Th(s1, t) == Th(s, t)
    ensures Bystander(s1, t) && SleepOk(s1) && s1.threads.Keys == s.threads.Keys
  {
    SleepFrame(s, s1);
  }

  lemma SignalThenSchedule(s: Sched, s1: Sched, s2: Sched, t: Tid)
    requires Th(s1, t) == Th(s, t) && Outcome(s1, s2, t, false) && RunOk(s2) && t != s2.idle
    ensures Outcome(s, Schedule(s2), t, false)
  {
    assert s2.runq != [] ==> s2.runq[0] in s2.runq;
    ScheduleSpares(s, s2, t, false);
  }

  lemma JoinSpares(s: Sched, x: Tid, t: Tid)
    requires RunOk(s) && s.current in s.threads && Bystander(s, t)
    ensures Outcome(s, Join(s, x).0, t, false)
  {
    if Th(s, x).state != Zombie {
      WaitSpares(s, Term(x), None, InJoin(x), t);
    }
  }

  lemma ContinueSpares(s: Sched, s1: Sched, t: Tid)
    requires Bystander(s, t) && s1.threads == s.threads && s1.current == s.current
    ensures Outcome(s, Continue(TakeInterrupt(s1)), t, false) && Outcome(s, Continue(s1), t, false)
  {
  }

  lemma PollReturnSpares(s: Sched, t: Tid)
    requires Bystander(s, t) && Th(s, s.current).at.InPoll?
    ensures Outcome(s, Resumed(s).0, t, false)
  {
    ContinueSpares(s, s.(ioq := Without(s.ioq, s.current), ep := DelAll(s.ep, Th(s, s.current).at.pds)), t);
    ContinueSpares(s, s, t);
  }

  lemma VanishSpares(s: Sched, t: Tid)
    requires RunOk(s) && Bystander(s, t)
    ensures Outcome(s, Schedule(Vanish(s)), t, false)
  {
    assert s.runq != [] ==> s.runq[0] in s.runq;
    ScheduleSpares(s, Vanish(s), t, false);
  }

  lemma LockReturnSpares(s: Sched, m: nat, t: Tid)
    requires Bystander(s, t) && Th(s, s.current).at == InLock(m)
    ensures Outcome(s, Resumed(s).0, t, false)
  {
    ContinueSpares(s, s.(lockq := s.lockq[m := Without(LockQ(s, m), s.current)]), t);
  }

  lemma PlainReturnSpares(s: Sched, t: Tid)
    requires Bystander(s, t)
    requires var at := Th(s, s.current).at; at in {Active, Fresh, InSleep, InYield, InIdle} || at.InCond?
    ensures Outcome(s, Resumed(s).0, t, false)
  {
    ContinueSpares(s, s, t);
  }

  lemma ReturnSpares(s: Sched, t: Tid)
    requires Inv(s) && s.current != s.idle && !s.exited && Bystander(s, t)
    ensures Outcome(s, Resumed(s).0, t, false)
  {
    match Th(s, s.current).at
    case InExit => VanishSpares(s, t);
    case InJoin(x) => JoinReturnSpares(s, x, t);
    case InPoll(_, _) => PollReturnSpares(s, t);
    case InLock(m) => LockReturnSpares(s, m, t);
    case _ => PlainReturnSpares(s, t);
  }

  lemma JoinReturnSpares(s: Sched, x: Tid, t: Tid)
    requires Inv(s) && s.current != s.idle && Bystander(s, t) && Th(s, s.current).at == InJoin(x)
    ensures Outcome(s, Resumed(s).0, t, false)
  {
    if !Th(s, s.current).interrupt {
      JoinerFindsZombie(s);
    }
  }

  /** The clock check marks the waiters that it wakes, and leaves a thread that is ready alone. */
  lemma ClockMarks(s: Sched, now: int, t: Tid)
    requires Quiet(s) && OneRuns(s) && Bystander(s, t)
    ensures Outcome(s, CheckClock(s, now), t, true)
  {
    ClockIsIrrelevant(s, now);
    ExpireEffect(s.(lastClock := now), now);
    GoneIsAsleep(s, now);
    assert FlagsFit(s.threads[t]);
  }

  lemma YieldMarks(s: Sched, now: int, t: Tid)
    requires Inv(s) && UserRuns(s) && Bystander(s, t)
    ensures Outcome(s, Yield(s, now).0, t, true)
  {
    ClockMarks(s, now, t);
    CheckClockKeeps(s, now);
    ClockIsIrrelevant(s, now);
    ExpireFacts(s.(lastClock := now), now);
    var s1 := CheckClock(s, now);
    if s1.runq != [] {
      var s2 := Park(s1, Runnable, InYield).(runq := s1.runq + [s.current]);
      assert s1.runq[0] in s1.runq && s2.runq[0] == s1.runq[0];
      ScheduleSpares(s, s2, t, true);
    }
  }

  lemma IdleMarks(s: Sched, now: int, fired: seq<Fired>, t: Tid)
    requires Inv(s) && s.current == s.idle && MayFire(s.ep, fired) && Bystander(s, t)
    ensures Outcome(s, IdleRound(s, now, fired), t, true)
  {
    if s.activeCount > 0 {
      var s1 := Dispatch(s, fired);
      DispatchKeeps(s, fired);
      NobodyIsReady(s, t);
      assert t !in s.ioq;
      if fired != [] {
        DispatchWakes(s, fired, t);
      }
      IdleClockMarks(s, s1, now, t);
    }
  }

  /** While the idle thread runs, a bystander waits. */
  lemma NobodyIsReady(s: Sched, t: Tid)
    requires Inv(s) && s.current == s.idle && Bystander(s, t)
    ensures Th(s, t).state == CondWait
  {
    assert Th(s, t).state == Runnable ==> t in s.runq;
  }

  lemma IdleClockMarks(s: Sched, s1: Sched, now: int, t: Tid)
    requires Quiet(s1) && OneRuns(s1) && Bystander(s1, t) && Th(s, t) == Th(s1, t) && s1.current == s1.idle
    ensures Outcome(s, Schedule(Park(CheckClock(s1, now), Runnable, InIdle)), t, true)
  {
    ClockMarks(s1, now, t);
    CheckClockKeeps(s1, now);
    ClockIsIrrelevant(s1, now);
    ExpireFacts(s1.(lastClock := now), now);
    IdleParkSpares(s, CheckClock(s1, now), t);
  }

  lemma IdleParkSpares(s: Sched, s2: Sched, t: Tid)
    requires Outcome(s, s2, t, true) && RunOk(s2) && s2.current == s2.idle && t != s2.idle
    ensures Outcome(s, Schedule(Park(s2, Runnable, InIdle)), t, true)
  {
    assert s2.runq != [] ==> s2.runq[0] in s2.runq;
    ScheduleSpares(s, Park(s2, Runnable, InIdle), t, true);
  }

  /** The steps that check the clock. */
  predicate ChecksClock(step: Step) {
    step.DoYield? || step.DoIdle?
  }

  lemma IsBystander(s: Sched, t: Tid)
    requires Inv(s) && t in s.threads && t != s.current && t != s.idle && (Th(s, t).at.InCond? || IsReady(Th(s, t).state))
    ensures Bystander(s, t)
  {
    assert StateFits(s.threads[t]) && FlagsFit(s.threads[t]);
  }

  /**
    What a step does to a condition waiter that it does not resume: woken from COND_WAIT, it has
    the time-out mark iff the step is a clock check; once woken, its mark does not change any more.
   */
  lemma StepOnWaiter(s: Sched, step: Step, t: Tid)
    requires Inv(s) && Enabled(s, step) && t in s.threads && Th(s, t).at.InCond?
    requires !(step == DoResume && s.current == t)
    ensures Outcome(s, Apply(s, step).0, t, ChecksClock(step))
  {
    StepOnBystander(s, step, t);
  }

  /** A thread that is not where it may make calls. */
  predicate InCall(s: Sched, t: Tid) {
    t in s.threads && Th(s, t).at != Active && Th(s, t).at != InIdle
  }

  lemma StepOnBystander(s: Sched, step: Step, t: Tid)
    requires Inv(s) && Enabled(s, step) && InCall(s, t) && (Th(s, t).at.InCond? || IsReady(Th(s, t).state))
    requires !(step == DoResume && s.current == t)
    ensures Outcome(s, Apply(s, step).0, t, ChecksClock(step))
  {
    IsBystander(s, t);
    if BlocksOrWakes(step) {
      WaitStepOnWaiter(s, step, t);
    } else {
      OtherStepOnWaiter(s, step, t);
    }
  }

  predicate BlocksOrWakes(step: Step) {
    step.DoPoll? || step.DoUSleep? || step.DoCondWait? || step.DoCondSignal? || step.DoLock? || step.DoUnlock? || step.DoInterrupt?
  }

  lemma WaitStepOnWaiter(s: Sched, step: Step, t: Tid)
    requires Inv(s) && Enabled(s, step) && Bystander(s, t) && BlocksOrWakes(step)
    ensures Outcome(s, Apply(s, step).0, t, false)
  {
    match step
    case DoPoll(pds, timeout, refused) => PollSpares(s, pds, timeout, refused, t);
    case DoUSleep(timeout) => USleepSpares(s, timeout, t);
    case DoCondWait(c, timeout) => WaitSpares(s, User(c), timeout, InCond(User(c)), t);
    case DoCondSignal(c, broadcast) => QueuedAreThreads(s, User(c)); SignalSpares(s, User(c), broadcast, t);
    case DoLock(m) => LockSpares(s, m, t);
    case DoUnlock(m) => UnlockSpares(s, m, t);
    case DoInterrupt(x) => InterruptSpares(s, x, t);
  }

  lemma OtherStepOnWaiter(s: Sched, step: Step, t: Tid)
    requires Inv(s) && Enabled(s, step) && Bystander(s, t) && !BlocksOrWakes(step)
    ensures Outcome(s, Apply(s, step).0, t, ChecksClock(step))
  {
    match step
    case DoCreate(_) =>
    case DoExit => ExitSpares(s, t);
    case DoJoin(x) => JoinSpares(s, x, t);
    case DoTryLock(_) =>
    case DoYield(now) => YieldMarks(s, now, t);
    case DoIdle(now, fired) => IdleMarks(s, now, fired, t);
    case DoResume => ReturnSpares(s, t);
  }

  /** Step n of a run, as it concerns a condition waiter or a thread that was woken. */
  ghost predicate StepSpares(s: Sched, s': Sched, t: Tid, clock: bool) {
    InCall(s, t) && (Th(s, t).at.InCond? || IsReady(Th(s, t).state)) ==> Outcome(s, s', t, clock)
  }

  lemma RunStepSpares(states: seq<Sched>, steps: seq<Step>, t: Tid, n: nat)
    requires IsRun(states, steps) && Inv(states[0]) && n < |steps|
    requires !(steps[n] == DoResume && states[n].current == t)
    ensures StepSpares(states[n], states[n + 1], t, ChecksClock(steps[n]))
  {
    RunKeeps(states, steps, n);
    if InCall(states[n], t) && (Th(states[n], t).at.InCond? || IsReady(Th(states[n], t).state)) {
      StepOnBystander(states[n], steps[n], t);
    }
  }

  /** A step does not touch a thread that was woken. */
  ghost predicate StaysReady(s: Sched, s': Sched, t: Tid) {
    InCall(s, t) && IsReady(Th(s, t).state) ==> StillReady(s, s', t) && InCall(s', t)
  }

  lemma {:induction false} MarkKept(states: seq<Sched>, t: Tid, m: nat, n: nat)
    requires m <= n < |states|
    requires InCall(states[m], t) && IsReady(Th(states[m], t).state)
    requires forall i {:trigger states[i]} :: m < i <= n ==> StaysReady(states[i - 1], states[i], t)
    ensures StillReady(states[m], states[n], t) && InCall(states[n], t)
  {
    if m < n {
      MarkKept(states, t, m, n - 1);
    }
  }

  lemma RunStaysReady(states: seq<Sched>, steps: seq<Step>, t: Tid, n: nat)
    requires IsRun(states, steps) && Inv(states[0]) && 0 < n <= |steps|
    requires !(steps[n - 1] == DoResume && states[n - 1].current == t)
    ensures StaysReady(states[n - 1], states[n], t)
  {
    RunStepSpares(states, steps, t, n - 1);
  }

  /** A thread that was woken keeps its record, whatever happens but an interrupt, until it is resumed. */
  lemma MarkIsFinal(states: seq<Sched>, steps: seq<Step>, t: Tid, m: nat, n: nat)
    requires IsRun(states, steps) && Inv(states[0]) && m <= n <= |steps|
    requires InCall(states[m], t) && IsReady(Th(states[m], t).state)
    requires forall i :: m <= i < n ==> !(steps[i] == DoResume && states[i].current == t)
    ensures StillReady(states[m], states[n], t)
  {
    forall i {:trigger states[i]} | m < i <= n
      ensures StaysReady(states[i - 1], states[i], t)
    {
      RunStaysReady(states, steps, t, i);
    }
    MarkKept(states, t, m, n);
  }

  /** What `st_cond_timedwait` reports. */
  lemma WaitReports(s: Sched)
    requires Inv(s) && Th(s, s.current).at.InCond?
    ensures var r := Resumed(s).1; var me := Th(s, s.current);
            && (r == Done(-1, EINTR) <==> me.interrupt)
            && (r == Done(-1, ETIME) <==> !me.interrupt && me.timedOut)
            && (r == OK <==> !me.interrupt && !me.timedOut)
  {
  }

  /** The step that takes a waiter out of COND_WAIT marks it iff it is a clock check. */
  lemma WakerMarks(states: seq<Sched>, steps: seq<Step>, t: Tid, m: nat)
    requires IsRun(states, steps) && Inv(states[0]) && m < |steps|
    requires Th(states[m], t).at.InCond? && Th(states[m], t).state == CondWait
    requires Th(states[m + 1], t).state != CondWait
    ensures IsReady(Th(states[m + 1], t).state) && Th(states[m + 1], t).at.InCond?
    ensures Th(states[m + 1], t).timedOut <==> ChecksClock(steps[m])
  {
    RunKeeps(states, steps, m);
    RunStepSpares(states, steps, t, m);
  }

  /**
    `st_cond_timedwait` reports ETIME iff the thread was not interrupted and the step that took it
    out of COND_WAIT was a clock check: a waiter that was signalled can never time out afterwards.
   */
  lemma TimedOutIffClockWoke(states: seq<Sched>, steps: seq<Step>, t: Tid, m: nat, n: nat)
    requires IsRun(states, steps) && Inv(states[0]) && m < n < |steps|
    requires Th(states[m], t).at.InCond? && Th(states[m], t).state == CondWait
    requires Th(states[m + 1], t).state != CondWait
    requires forall i :: m + 1 <= i < n ==> !(steps[i] == DoResume && states[i].current == t)
    requires states[n].current == t
    ensures var r := Resumed(states[n]).1;
            && (r == Done(-1, EINTR) <==> Th(states[n], t).interrupt)
            && (r == Done(-1, ETIME) <==> !Th(states[n], t).interrupt && ChecksClock(steps[m]))
            && (r == OK <==> !Th(states[n], t).interrupt && !ChecksClock(steps[m]))
  {
    WakerMarks(states, steps, t, m);
    MarkIsFinal(states, steps, t, m + 1, n);
    RunKeeps(states, steps, n);
    WaitReports(states[n]);
  }
}
