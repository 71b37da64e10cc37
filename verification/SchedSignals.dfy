/**
  The signals of a condition variable over whole runs: which waiters they wake while other threads
  go on, clocks are checked and new waiters arrive.
 */
module SchedSignals {
  import opened Wrappers
  import opened TimeoutHeapSpec
  import opened Epoll
  import opened Sched
  import opened SchedInv
  import opened SchedRuns
  import opened SchedClock
  import opened SchedCond
  import opened SchedTimeout

  // ---------------------------------------------------------------- the queue of a condition variable

  lemma {:induction false} DispatchAllQueues(s: Sched, q: seq<Tid>)
    ensures DispatchAll(s, q).condq == s.condq
  {
    if q != [] {
      DispatchAllQueues(s, q[..|q| - 1]);
    }
  }

  lemma ClockQueues(s: Sched, now: int)
    requires Quiet(s) && OneRuns(s)
    ensures CheckClock(s, now).condq == s.condq
  {
    ClockIsIrrelevant(s, now);
    ExpireEffect(s.(lastClock := now), now);
  }

  lemma IdleQueues(s: Sched, now: int, fired: seq<Fired>)
    requires Inv(s) && s.current == s.idle && MayFire(s.ep, fired)
    ensures IdleRound(s, now, fired).condq == s.condq
  {
    if s.activeCount > 0 {
      DispatchAllQueues(s.(ep := Mark(s.ep, fired)), s.ioq);
      DispatchKeeps(s, fired);
      ClockQueues(Dispatch(s, fired), now);
    }
  }

  lemma {:induction false} SignalFromQueues(s: Sched, q: seq<Tid>, broadcast: bool)
    ensures SignalFrom(s, q, broadcast).condq == s.condq
    decreases |q|
  {
    if q != [] {
      if Th(s, q[0]).state != CondWait {
        SignalFromQueues(s, q[1..], broadcast);
      } else if broadcast {
        SignalFromQueues(MakeRunnable(s, q[0]), q[1..], true);
      }
    }
  }

  lemma ExitQueues(s: Sched)
    ensures Exit(s).condq == s.condq
  {
    if Th(s, s.current).joinable {
      SignalFromQueues(Zombified(s), CondQ(Zombified(s), Term(s.current)), false);
    }
  }

  /** The step blocks its caller on the condition variable. */
  predicate Blocks(s: Sched, step: Step, c: nat) {
    step.DoCondWait? && step.cond == c && !Th(s, s.current).interrupt
  }

  /** The step resumes a thread that is linked on the condition variable. */
  predicate Resumes(s: Sched, step: Step, c: nat) {
    step.DoResume? && Th(s, s.current).at == InCond(User(c))
  }

  lemma BlockedQueue(s: Sched, t: Tid, timeout: Option<nat>)
    ensures Schedule(AddSleepQIf(s, t, timeout)).condq == s.condq
  {
  }

  lemma WaitQueue(s: Sched, d: CondId, timeout: Option<nat>, at: Resume, c: CondId)
    ensures CondQ(Wait(s, d, timeout, at).0, c) ==
            if d == c && !Th(s, s.current).interrupt then CondQ(s, c) + [s.current] else CondQ(s, c)
  {
    var s1 := Park(s, CondWait, at);
    BlockedQueue(s1.(condq := s1.condq[d := CondQ(s1, d) + [s.current]]), s.current, timeout);
  }

  lemma JoinQueue(s: Sched, x: Tid, c: nat)
    ensures CondQ(Join(s, x).0, User(c)) == CondQ(s, User(c))
  {
    WaitQueue(s, Term(x), None, InJoin(x), User(c));
  }

  lemma PollQueue(s: Sched, pds: seq<Pollfd>, timeout: Option<nat>, refused: set<int>)
    ensures Poll(s, pds, timeout, refused).0.condq == s.condq
  {
    var (ep, r) := AddPollset(s.ep, pds, refused);
    BlockedQueue(Park(s, IoWait, InPoll(pds, true)).(ep := ep, ioq := s.ioq + [s.current]), s.current, timeout);
  }

  lemma LockQueue(s: Sched, m: nat)
    ensures Lock(s, m).0.condq == s.condq
  {
  }

  lemma UnlockQueue(s: Sched, m: nat)
    ensures Unlock(s, m).0.condq == s.condq
  {
  }

  lemma InterruptQueue(s: Sched, t: Tid)
    ensures Interrupt(s, t).condq == s.condq
  {
  }

  lemma USleepQueue(s: Sched, timeout: Option<nat>)
    ensures USleep(s, timeout).0.condq == s.condq
  {
    BlockedQueue(Park(s, if timeout.Some? then Sleeping else Suspended, InSleep), s.current, timeout);
  }

  /** A waiter is linked at the end of the queue and unlinked by itself; nobody else touches the queue. */
  lemma StepQueue(s: Sched, step: Step, c: nat)
    requires Inv(s) && Enabled(s, step)
    ensures var q := CondQ(s, User(c));
            CondQ(Apply(s, step).0, User(c)) ==
            if Blocks(s, step, c) then q + [s.current]
            else if Resumes(s, step, c) then Without(q, s.current)
            else q
  {
    match step
    case DoCreate(_) =>
    case DoExit => ExitQueues(s);
    case DoJoin(x) => JoinQueue(s, x, c);
    case DoPoll(pds, timeout, refused) => PollQueue(s, pds, timeout, refused);
    case DoUSleep(timeout) => USleepQueue(s, timeout);
    case DoCondWait(d, timeout) => WaitQueue(s, User(d), timeout, InCond(User(d)), User(c));
    case DoCondSignal(d, broadcast) => SignalFromQueues(s, CondQ(s, User(d)), broadcast);
    case DoLock(m) => LockQueue(s, m);
    case DoUnlock(m) => UnlockQueue(s, m);
    case DoTryLock(m) =>
    case DoYield(now) => YieldQueues(s, now);
    case DoInterrupt(t) => InterruptQueue(s, t);
    case DoIdle(now, fired) => IdleQueues(s, now, fired);
    case DoResume => ResumeQueue(s, c);
  }

  lemma YieldQueues(s: Sched, now: int)
    requires Inv(s)
    ensures Yield(s, now).0.condq == s.condq
  {
    ClockQueues(s, now);
  }

  lemma ResumeQueue(s: Sched, c: nat)
    requires Inv(s) && s.current != s.idle && Th(s, s.current).at != Active
    ensures var q := CondQ(s, User(c));
            CondQ(Resumed(s).0, User(c)) == if Th(s, s.current).at == InCond(User(c)) then Without(q, s.current) else q
  {
    if Th(s, s.current).at.InJoin? && !Th(s, s.current).interrupt {
      JoinerFindsZombie(s);
    }
  }

  // ---------------------------------------------------------------- the waiters

  lemma {:induction false} WaitersAppend(s: Sched, q: seq<Tid>, p: seq<Tid>)
    ensures Waiters(s, q + p) == Waiters(s, q) + Waiters(s, p)
  {
    if q == [] {
      assert q + p == p;
    } else {
      assert (q + p)[0] == q[0] && (q + p)[1..] == q[1..] + p;
      WaitersAppend(s, q[1..], p);
    }
  }

  lemma {:induction false} WaitersWithout(s: Sched, q: seq<Tid>, t: Tid)
    requires Th(s, t).state != CondWait
    ensures Waiters(s, Without(q, t)) == Waiters(s, q)
  {
    if q != [] && q[0] != t {
      WaitersWithout(s, q[1..], t);
    }
  }

  /** Those that wait in s' are among those that wait in s. */
  lemma {:induction false} WaitersTwice(s: Sched, s': Sched, q: seq<Tid>)
    requires forall x :: x in q && Th(s, x).state != CondWait ==> Th(s', x).state != CondWait
    ensures Waiters(s', q) == Waiters(s', Waiters(s, q))
  {
    if q != [] {
      WaitersTwice(s, s', q[1..]);
    }
  }

  /** A linked thread that was woken does not wait again before it is unlinked. */
  lemma LinkedStayWoken(s: Sched, step: Step, c: nat, x: Tid)
    requires Inv(s) && Enabled(s, step) && x in CondQ(s, User(c)) && Th(s, x).state != CondWait
    ensures Th(Apply(s, step).0, x).state != CondWait
  {
    assert WaitsFor(Th(s, x).at, User(c)) && x in s.threads;
    if !(step == DoResume && s.current == x) {
      assert StateFits(s.threads[x]);
      StepOnWaiter(s, step, x);
    }
  }

  lemma BlockedWaits(s: Sched, step: Step, c: nat)
    requires Inv(s) && Enabled(s, step) && Blocks(s, step, c)
    ensures Th(Apply(s, step).0, s.current).state == CondWait
  {
    var s' := Apply(s, step).0;
    StepQueue(s, step, c);
    StepKeeps(s, step);
    RunningThread(s);
    var s1 := Park(s, CondWait, InCond(User(c)));
    var s2 := s1.(condq := s1.condq[User(c) := CondQ(s1, User(c)) + [s.current]]);
    AddSleepQIfFacts(s2, s.current, step.timeout);
    assert s.runq != [] ==> s.runq[0] in s.runq;
  }

  /** Those who wait behind a step: of those who waited before it, the ones that it does not wake, and the caller if it blocks. */
  lemma StepWaiters(s: Sched, step: Step, c: nat)
    requires Inv(s) && Enabled(s, step)
    ensures var s' := Apply(s, step).0;
            Waiters(s', CondQ(s', User(c))) ==
            Waiters(s', Waiters(s, CondQ(s, User(c)))) + if Blocks(s, step, c) then [s.current] else []
  {
    var s' := Apply(s, step).0;
    var q := CondQ(s, User(c));
    forall x | x in q && Th(s, x).state != CondWait
      ensures Th(s', x).state != CondWait
    {
      LinkedStayWoken(s, step, c, x);
    }
    WaitersTwice(s, s', q);
    StepQueue(s, step, c);
    if Blocks(s, step, c) {
      BlockedWaits(s, step, c);
      WaitersAppend(s', q, [s.current]);
      assert Waiters(s', [s.current]) == [s.current];
    } else if Resumes(s, step, c) {
      assert Th(s', s.current).state != CondWait;
      WaitersWithout(s', q, s.current);
    }
  }

  lemma {:induction false} WaitersPart(s: Sched, q: seq<Tid>)
    requires forall x :: x in q ==> Th(s, x).state == CondWait
    ensures Waiters(s, q) == q
  {
    if q != [] {
      WaitersPart(s, q[1..]);
    }
  }

  /** A signal takes the first waiter out of COND_WAIT, and no other thread. */
  lemma SignalTakesFirst(s: Sched, c: nat)
    requires Inv(s) && UserRuns(s)
    ensures var w := Waiters(s, CondQ(s, User(c)));
            var s' := Signal(s, User(c), false);
            && Waiters(s', CondQ(s', User(c))) == (if w == [] then [] else w[1..])
            && (w != [] ==> Th(s', w[0]).state == Runnable)
            && (forall x :: x !in (if w == [] then [] else [w[0]]) ==> Th(s', x) == Th(s, x))
  {
    var q := CondQ(s, User(c));
    QueuedAreThreads(s, User(c));
    SignalWakes(s, q, false);
    SignalFromQueues(s, q, false);
    if Waiters(s, q) == [] {
      WaitersFrame(s, Signal(s, User(c), false), q);
    } else {
      WaitersAfterFirst(s, Signal(s, User(c), false), q);
    }
  }

  // ---------------------------------------------------------------- a waiter is reached in its turn

  /** The thread waits for a signal of the condition variable. */
  predicate AwaitsSignal(s: Sched, t: Tid, c: nat) {
    t in s.threads && Th(s, t).state == CondWait && Th(s, t).at == InCond(User(c))
  }

  /** The number of elements before the first t. */
  function Before(w: seq<Tid>, t: Tid): nat {
    if w == [] || w[0] == t then 0 else 1 + Before(w[1..], t)
  }

  /** How many threads wait that are linked before t. */
  function WaitersBefore(s: Sched, t: Tid, c: nat): nat {
    Before(Waiters(s, CondQ(s, User(c))), t)
  }

  predicate IsSignal(step: Step, c: nat) {
    step == DoCondSignal(c, false)
  }

  /** The number of signals, other than broadcasts, among the steps. */
  function SignalCount(steps: seq<Step>, c: nat): nat {
    if steps == [] then 0
    else SignalCount(steps[..|steps| - 1], c) + if IsSignal(steps[|steps| - 1], c) then 1 else 0
  }

  lemma {:induction false} BeforeInPart(s: Sched, w: seq<Tid>, p: seq<Tid>, t: Tid)
    requires t in w && Th(s, t).state == CondWait
    ensures Before(Waiters(s, w) + p, t) <= Before(w, t)
  {
    if w[0] != t {
      assert w == [w[0]] + w[1..];
      BeforeInPart(s, w[1..], p, t);
      if Th(s, w[0]).state == CondWait {
        assert (Waiters(s, w) + p)[1..] == Waiters(s, w[1..]) + p;
      }
    }
  }

  lemma AwaitingIsLinked(s: Sched, t: Tid, c: nat)
    requires Inv(s) && AwaitsSignal(s, t, c)
    ensures t in Waiters(s, CondQ(s, User(c)))
  {
    assert WaitsFor(Th(s, t).at, User(c));
    assert t in QueueOf(s.condq, User(c));
    WaitersIn(s, CondQ(s, User(c)));
  }

  /** No step puts a waiter further back, and every signal moves it on. */
  lemma StepMovesOn(s: Sched, step: Step, t: Tid, c: nat)
    requires Inv(s) && Enabled(s, step) && AwaitsSignal(s, t, c) && AwaitsSignal(Apply(s, step).0, t, c)
    ensures WaitersBefore(Apply(s, step).0, t, c) + (if IsSignal(step, c) then 1 else 0) <= WaitersBefore(s, t, c)
  {
    var s' := Apply(s, step).0;
    var w := Waiters(s, CondQ(s, User(c)));
    AwaitingIsLinked(s, t, c);
    if IsSignal(step, c) {
      SignalTakesFirst(s, c);
    } else {
      StepWaiters(s, step, c);
      BeforeInPart(s', w, if Blocks(s, step, c) then [s.current] else [], t);
    }
  }

  lemma {:induction false} WaitsWhileSignalsAreFew(states: seq<Sched>, steps: seq<Step>, t: Tid, c: nat, n: nat)
    requires IsRun(states, steps) && Inv(states[0]) && n <= |steps|
    requires forall i :: 0 <= i <= n ==> AwaitsSignal(states[i], t, c)
    ensures WaitersBefore(states[n], t, c) + SignalCount(steps[..n], c) <= WaitersBefore(states[0], t, c)
  {
    if n > 0 {
      WaitsWhileSignalsAreFew(states, steps, t, c, n - 1);
      RunMovesOn(states, steps, t, c, n - 1);
      OneStepMore(steps, c, n);
    }
  }

  lemma RunMovesOn(states: seq<Sched>, steps: seq<Step>, t: Tid, c: nat, i: nat)
    requires IsRun(states, steps) && Inv(states[0]) && i < |steps|
    requires AwaitsSignal(states[i], t, c) && AwaitsSignal(states[i + 1], t, c)
    ensures WaitersBefore(states[i + 1], t, c) + (if IsSignal(steps[i], c) then 1 else 0) <= WaitersBefore(states[i], t, c)
  {
    RunKeeps(states, steps, i);
    StepMovesOn(states[i], steps[i], t, c);
  }

  lemma OneStepMore(steps: seq<Step>, c: nat, n: nat)
    requires 0 < n <= |steps|
    ensures SignalCount(steps[..n], c) == SignalCount(steps[..n - 1], c) + if IsSignal(steps[n - 1], c) then 1 else 0
  {
    assert steps[..n][..n - 1] == steps[..n - 1];
  }

  /**
    First come, first served, over any run: a thread with k waiters linked before it has left its
    wait, woken or otherwise, when k + 1 signals have been given.
   */
  lemma WaiterIsReached(states: seq<Sched>, steps: seq<Step>, t: Tid, c: nat)
    requires IsRun(states, steps) && Inv(states[0]) && AwaitsSignal(states[0], t, c)
    requires SignalCount(steps, c) > WaitersBefore(states[0], t, c)
    ensures exists i :: 0 < i < |states| && !AwaitsSignal(states[i], t, c)
  {
    assert steps[..|steps|] == steps;
    if forall i :: 0 < i < |states| ==> AwaitsSignal(states[i], t, c) {
      WaitsWhileSignalsAreFew(states, steps, t, c, |steps|);
    }
  }

  // ---------------------------------------------------------------- exactly whom the signals wake

  /** No thread of w is resumed by the step, and none leaves its wait except by a signal. */
  ghost predicate OnlySignalled(s: Sched, step: Step, w: seq<Tid>, c: nat) {
    forall t :: t in w ==>
      && !(step == DoResume && s.current == t)
      && (Th(s, t).state == CondWait && Th(Apply(s, step).0, t).state != CondWait ==> IsSignal(step, c))
  }

  /** The first j threads of w have been woken and not yet resumed; the others still wait, before any later waiter. */
  ghost predicate WokenInOrder(s: Sched, w: seq<Tid>, c: nat, j: nat) {
    && j <= |w|
    && (forall t :: t in w ==> t in s.threads && Th(s, t).at == InCond(User(c)))
    && (forall i :: 0 <= i < j ==> IsReady(Th(s, w[i]).state))
    && StillFirst(s, w[j..], c)
  }

  /** The waiters of the condition variable begin with those in w. */
  ghost predicate StillFirst(s: Sched, w: seq<Tid>, c: nat) {
    w <= Waiters(s, CondQ(s, User(c)))
  }

  lemma NoneWokenYet(s: Sched, c: nat)
    requires Inv(s)
    ensures WokenInOrder(s, Waiters(s, CondQ(s, User(c))), c, 0)
  {
    var w := Waiters(s, CondQ(s, User(c)));
    WaitersIn(s, CondQ(s, User(c)));
    QueuedAreThreads(s, User(c));
    forall t | t in w
      ensures t in s.threads && Th(s, t).at == InCond(User(c))
    {
      assert WaitsFor(Th(s, t).at, User(c));
    }
    assert w[0..] == w;
  }

  /** A thread of w stays where it is until it is resumed, and ready once it was woken. */
  lemma StaysLinked(s: Sched, step: Step, t: Tid, c: nat)
    requires Inv(s) && Enabled(s, step) && t in s.threads && Th(s, t).at == InCond(User(c))
    requires !(step == DoResume && s.current == t)
    ensures var s' := Apply(s, step).0;
            && t in s'.threads && Th(s', t).at == InCond(User(c))
            && (IsReady(Th(s, t).state) ==> IsReady(Th(s', t).state))
  {
    StepOnWaiter(s, step, t);
  }

  lemma {:induction false} FirstStillWait(s: Sched, w: seq<Tid>, all: seq<Tid>)
    requires w <= all && forall t :: t in w ==> Th(s, t).state == CondWait
    ensures w <= Waiters(s, all)
  {
    assert all == w + all[|w|..];
    WaitersPart(s, w);
    WaitersAppend(s, w, all[|w|..]);
  }

  /** A step that is not a signal leaves the waiters of w, and their place, alone. */
  lemma OtherStepStillFirst(s: Sched, step: Step, w: seq<Tid>, c: nat)
    requires Inv(s) && Enabled(s, step) && StillFirst(s, w, c) && OnlySignalled(s, step, w, c) && !IsSignal(step, c)
    ensures StillFirst(Apply(s, step).0, w, c)
  {
    var s' := Apply(s, step).0;
    var all := Waiters(s, CondQ(s, User(c)));
    WaitersIn(s, CondQ(s, User(c)));
    forall t | t in w
      ensures Th(s', t).state == CondWait
    {
      assert t in all;
    }
    FirstStillWait(s', w, all);
    StepWaiters(s, step, c);
  }

  /** A signal takes the first of w, if any is left. */
  lemma SignalStillFirst(s: Sched, w: seq<Tid>, c: nat)
    requires Inv(s) && UserRuns(s) && StillFirst(s, w, c)
    ensures w != [] ==> StillFirst(Signal(s, User(c), false), w[1..], c) && Th(Signal(s, User(c), false), w[0]).state == Runnable
    ensures w == [] ==> StillFirst(Signal(s, User(c), false), w, c)
  {
    SignalTakesFirst(s, c);
  }

  function Min(a: nat, b: nat): nat {
    if a <= b then a else b
  }

  lemma StepWakesInOrder(s: Sched, step: Step, w: seq<Tid>, c: nat, j: nat)
    requires Inv(s) && Enabled(s, step) && WokenInOrder(s, w, c, j) && OnlySignalled(s, step, w, c)
    ensures WokenInOrder(Apply(s, step).0, w, c, if IsSignal(step, c) then Min(j + 1, |w|) else j)
  {
    AllStayLinked(s, step, w, c);
    if IsSignal(step, c) {
      SignalStillFirst(s, w[j..], c);
      SignalWakesNext(s, Signal(s, User(c), false), w, c, j);
    } else {
      OtherStepStillFirst(s, step, w[j..], c);
    }
  }

  /** The threads of w are linked as before, and those that were ready still are. */
  ghost predicate Linked(s: Sched, s': Sched, w: seq<Tid>, c: nat) {
    forall t :: t in w ==>
      t in s'.threads && Th(s', t).at == InCond(User(c)) && (IsReady(Th(s, t).state) ==> IsReady(Th(s', t).state))
  }

  lemma AllStayLinked(s: Sched, step: Step, w: seq<Tid>, c: nat)
    requires Inv(s) && Enabled(s, step) && forall t :: t in w ==> t in s.threads && Th(s, t).at == InCond(User(c))
    requires OnlySignalled(s, step, w, c)
    ensures Linked(s, Apply(s, step).0, w, c)
  {
    forall t | t in w
      ensures var s' := Apply(s, step).0;
              t in s'.threads && Th(s', t).at == InCond(User(c)) && (IsReady(Th(s, t).state) ==> IsReady(Th(s', t).state))
    {
      StaysLinked(s, step, t, c);
    }
  }

  lemma SignalWakesNext(s: Sched, s': Sched, w: seq<Tid>, c: nat, j: nat)
    requires WokenInOrder(s, w, c, j) && Linked(s, s', w, c)
    requires j < |w| ==> StillFirst(s', w[j..][1..], c) && Th(s', w[j..][0]).state == Runnable
    requires j == |w| ==> StillFirst(s', w[j..], c)
    ensures WokenInOrder(s', w, c, Min(j + 1, |w|))
  {
    if j < |w| {
      assert w[j..][1..] == w[j + 1..] && w[j..][0] == w[j];
    }
  }

  lemma {:induction false} RunWakesInOrder(states: seq<Sched>, steps: seq<Step>, w: seq<Tid>, c: nat, n: nat)
    requires IsRun(states, steps) && Inv(states[0]) && n <= |steps| && WokenInOrder(states[0], w, c, 0)
    requires forall i :: 0 <= i < n ==> OnlySignalled(states[i], steps[i], w, c)
    ensures WokenInOrder(states[n], w, c, Min(SignalCount(steps[..n], c), |w|))
  {
    if n > 0 {
      RunWakesInOrder(states, steps, w, c, n - 1);
      RunStepWakes(states, steps, w, c, n - 1, Min(SignalCount(steps[..n - 1], c), |w|));
      OneStepMore(steps, c, n);
    }
  }

  lemma RunStepWakes(states: seq<Sched>, steps: seq<Step>, w: seq<Tid>, c: nat, i: nat, j: nat)
    requires IsRun(states, steps) && Inv(states[0]) && i < |steps|
    requires WokenInOrder(states[i], w, c, j) && OnlySignalled(states[i], steps[i], w, c)
    ensures WokenInOrder(states[i + 1], w, c, if IsSignal(steps[i], c) then Min(j + 1, |w|) else j)
  {
    RunKeeps(states, steps, i);
    StepWakesInOrder(states[i], steps[i], w, c, j);
  }

  /**
    Over any run in which, up to its step n, none of the threads that wait at its start is resumed
    and none of them leaves its wait except by a signal: k signals have woken exactly the first
    min(k, |w|) of the waiters w in queue order. Whatever other threads do meanwhile, also as new
    waiters, makes no difference.
   */
  lemma SignalsWakeExactly(states: seq<Sched>, steps: seq<Step>, c: nat, n: nat)
    requires IsRun(states, steps) && Inv(states[0]) && n <= |steps|
    requires forall i :: 0 <= i < n ==>
               OnlySignalled(states[i], steps[i], Waiters(states[0], CondQ(states[0], User(c))), c)
    ensures var w := Waiters(states[0], CondQ(states[0], User(c)));
            var woken := Min(SignalCount(steps[..n], c), |w|);
            forall i :: 0 <= i < |w| ==> (Th(states[n], w[i]).state != CondWait <==> i < woken)
  {
    var w := Waiters(states[0], CondQ(states[0], User(c)));
    NoneWokenYet(states[0], c);
    RunWakesInOrder(states, steps, w, c, n);
    WokenAreFirst(states[n], w, c, Min(SignalCount(steps[..n], c), |w|));
  }

  lemma WokenAreFirst(s: Sched, w: seq<Tid>, c: nat, j: nat)
    requires WokenInOrder(s, w, c, j)
    ensures forall i :: 0 <= i < |w| ==> (Th(s, w[i]).state != CondWait <==> i < j)
  {
    WaitersIn(s, CondQ(s, User(c)));
    assert forall i :: j <= i < |w| ==> w[i] == w[j..][i - j];
  }
}
