/**
  The virtual processor of State Threads as an object: the calls of `sched.c` and `sync.c` as
  they update the queues, the thread records and the linked timeout heap. A method `...Code` is
  the code of a call; it is proved to do exactly what the function of the same part of `Sched`
  says, and its requires name what the code relies on, as the assertions of the source do. The
  method of the call itself requires the invariant of the scheduler, keeps it, and states what
  the call promises.
 */
module VirtualProcessor {
  import opened Wrappers
  import opened TimeoutHeapSpec
  import opened TimeoutQueue
  import opened Epoll
  import opened Sched
  import opened SchedInv
  import opened SchedRuns
  import opened SchedCalls

  lemma {:induction false} DispatchOneMore(s: Sched, q: seq<Tid>, i: nat)
    requires i < |q|
    ensures DispatchAll(s, q[..i + 1]) == DispatchOne(DispatchAll(s, q[..i]), q[i])
  {
    assert q[..i + 1][..i] == q[..i];
  }

  class Vp {
    var threads: map<Tid, Thread>
    var current: Tid
    const idle: Tid
    var runq: seq<Tid>
    var ioq: seq<Tid>
    var zombieq: seq<Tid>
    const sleep: Timeouts
    var lastClock: int
    var condq: map<CondId, seq<Tid>>
    var lockq: map<nat, seq<Tid>>
    var owner: map<nat, Tid>
    var activeCount: int
    var nextTid: nat
    const ep: EventSystem
    var exited: bool

    ghost function View(): Sched
      reads this, ep, sleep, sleep.heap, sleep.heap.nodes
    {
      Sched(threads, current, idle, runq, ioq, zombieq, sleep.View(), lastClock, condq, lockq, owner,
            activeCount, nextTid, ep.View(), exited)
    }

    /** Every thread has its part in the records of the timeout heap. */
    ghost predicate Linked()
      reads this, sleep, sleep.heap, sleep.heap.nodes
    {
      sleep.Valid() && threads.Keys <= sleep.node.Keys && forall t :: t in sleep.node ==> t < nextTid
    }

    /** The records are linked, and the scheduler is in a state of some run. */
    ghost predicate Valid()
      reads this, ep, sleep, sleep.heap, sleep.heap.nodes
    {
      Linked() && Inv(View())
    }

    /** The state that `st_init` sets up. */
    constructor (clock: int)
      ensures Linked() && View() == SchedRuns.Init(clock)
      ensures fresh(ep) && fresh(sleep) && fresh(sleep.heap) && fresh(sleep.node.Values)
    {
      threads := map[0 := Thread(Runnable, false, false, false, 0, false, InIdle),
                     1 := Thread(Running, false, false, false, 0, false, Active)];
      current, idle := 1, 0;
      runq, ioq, zombieq := [], [], [];
      lastClock := clock;
      condq, lockq, owner := map[], map[], map[];
      activeCount, nextTid, exited := 1, 2, false;
      ep := new EventSystem();
      sleep := new Timeouts();
      new;
      sleep.Register(0);
      sleep.Register(1);
    }

    function Record(t: Tid): Thread
      reads this
    {
      if t in threads then threads[t] else NO_THREAD
    }

    method Update(t: Tid, th: Thread)
      requires Linked() && t in threads
      modifies this`threads
      ensures Linked() && View() == SetTh(old(View()), t, th)
    {
      threads := threads[t := th];
    }

    // -------------------------------------------------------------- queues and the clock

    /** `_st_add_sleep_q`; the thread is not in the heap yet. */
    method AddToSleepQ(t: Tid, timeout: nat)
      requires Linked() && t in threads && Position(View().sleepq, t) == 0
      modifies this`threads, sleep.heap, sleep.node.Values
      ensures Linked() && View() == AddSleepQ(old(View()), t, timeout)
    {
      var due := lastClock + timeout;
      Update(t, Record(t).(due := due, onSleepQ := true));
      sleep.Insert(t, due);
    }

    method AddToSleepQUnlessForever(t: Tid, timeout: Option<nat>)
      requires Linked() && t in threads && Position(View().sleepq, t) == 0
      modifies this`threads, sleep.heap, sleep.node.Values
      ensures Linked() && View() == AddSleepQIf(old(View()), t, timeout)
    {
      if timeout.Some? {
        AddToSleepQ(t, timeout.value);
      }
    }

    /** `_st_del_sleep_q`; the thread is in the heap. */
    method RemoveFromSleepQ(t: Tid)
      requires Linked() && t in threads && Position(View().sleepq, t) > 0
      modifies this`threads, sleep.heap, sleep.node.Values
      ensures Linked() && View() == DelSleepQ(old(View()), t)
    {
      sleep.Remove(t);
      Update(t, Record(t).(onSleepQ := false));
    }

    /** The code that every waker runs on the thread it wakes. */
    method Wake(t: Tid)
      requires Linked() && t in threads && (Record(t).onSleepQ ==> Position(View().sleepq, t) > 0)
      modifies this`threads, this`runq, sleep.heap, sleep.node.Values
      ensures Linked() && View() == MakeRunnable(old(View()), t)
    {
      if Record(t).onSleepQ {
        RemoveFromSleepQ(t);
      }
      MakeReady(t);
    }

    method MakeReady(t: Tid)
      requires Linked() && t in threads
      modifies this`threads, this`runq
      ensures Linked() && View() == SetTh(old(View()), t, old(Record(t)).(state := Runnable)).(runq := old(runq) + [t])
    {
      Update(t, Record(t).(state := Runnable));
      runq := runq + [t];
    }

    /** The record of a thread whose time has come. */
    method MarkTimedOut(t: Tid)
      requires Linked() && t in threads
      modifies this`threads
      ensures Linked()
      ensures var th := old(Record(t));
              View() == SetTh(old(View()), t, th.(onSleepQ := false, timedOut := th.timedOut || th.state == State.CondWait, state := Runnable))
    {
      var timedOut := Record(t).timedOut;
      if Record(t).state == State.CondWait {
        timedOut := true;
      }
      Update(t, Record(t).(onSleepQ := false, timedOut := timedOut, state := Runnable));
    }

    /** The body of the loop of `_st_vp_check_clock`: thread t, the root of the heap, is due. */
    method TimeOutRoot(t: Tid)
      requires Linked() && t in threads && View().sleepq != [] && View().sleepq[0].item == t && Position(View().sleepq, t) == 1
      modifies this`threads, this`runq, sleep.heap, sleep.node.Values
      ensures Linked() && View() == ExpireRoot(old(View()))
    {
      sleep.Remove(t);
      MarkTimedOut(t);
      runq := [t] + runq;
    }

    /** `_st_vp_check_clock`; both assertions of the source are proved. */
    method CheckTheClock(now: int)
      requires Linked() && SleepOk(View()) && !Record(idle).onSleepQ
      modifies this`threads, this`runq, this`lastClock, sleep.heap, sleep.node.Values
      ensures Linked() && View() == CheckClock(old(View()), now)
    {
      SetClock(now);
      ghost var all := Expire(View(), now);
      var more := true;
      while more
        invariant Linked() && SleepOk(View()) && !Record(idle).onSleepQ
        invariant Expire(View(), now) == all && (!more ==> View() == all)
        decreases |View().sleepq|, more
      {
        more := TimeOutFirst(now);
      }
    }

    method SetClock(now: int)
      requires Linked() && SleepOk(View())
      modifies this`lastClock
      ensures Linked() && SleepOk(View()) && View() == old(View()).(lastClock := now)
    {
      lastClock := now;
      SleepFrame(old(View()), View());
    }

    /** One round of the loop: the first thread is taken off the heap, if it is due. */
    method TimeOutFirst(now: int) returns (found: bool)
      requires Linked() && SleepOk(View()) && !Record(idle).onSleepQ
      modifies this`threads, this`runq, sleep.heap, sleep.node.Values
      ensures Linked() && SleepOk(View()) && !Record(idle).onSleepQ
      ensures Expire(View(), now) == Expire(old(View()), now)
      ensures found ==> |View().sleepq| < old(|View().sleepq|)
      ensures !found ==> View() == old(View()) == Expire(old(View()), now)
    {
      var empty, t, due := sleep.First();
      found := !empty && due <= now;
      if found {
        TimeOutSleeper(t);
      }
    }

    /** What the source asserts of a thread that is due. */
    method TimeOutSleeper(t: Tid)
      requires Linked() && SleepOk(View()) && !Record(idle).onSleepQ
      requires View().sleepq != [] && View().sleepq[0].item == t && Position(View().sleepq, t) == 1
      modifies this`threads, this`runq, sleep.heap, sleep.node.Values
      ensures Linked() && SleepOk(View()) && !Record(idle).onSleepQ
      ensures View() == ExpireRoot(old(View()))
    {
      ExpireRootEffect(View());
      assert Record(t).onSleepQ && t != idle;
      TimeOutRoot(t);
    }

    /** `_st_vp_schedule`; the assertion of the source, that the thread switched in is RUNNABLE, is proved. */
    method SwitchContext()
      requires Linked() && NextIsRunnable(View())
      modifies this`threads, this`runq, this`current
      ensures Linked() && View() == Schedule(old(View()))
    {
      var t := idle;
      if runq != [] {
        t := runq[0];
        runq := runq[1..];
      }
      assert Record(t).state == Runnable;
      Update(t, Record(t).(state := Running));
      current := t;
    }

    method ClearInterrupt()
      requires Linked() && current in threads
      modifies this`threads
      ensures Linked() && View() == TakeInterrupt(old(View()))
    {
      Update(current, Record(current).(interrupt := false));
    }

    // -------------------------------------------------------------- threads

    method CreateCode(joinable: bool) returns (t: Tid)
      requires Linked()
      modifies this, sleep`node
      ensures Linked() && View() == Create(old(View()), joinable) && t == old(nextTid)
      ensures fresh(sleep.node.Values - old(sleep.node.Values))
    {
      t := nextTid;
      sleep.Register(t);
      nextTid := nextTid + 1;
      AddThread(t, joinable);
    }

    method AddThread(t: Tid, joinable: bool)
      requires Linked() && t in sleep.node
      modifies this`threads, this`activeCount, this`runq
      ensures Linked()
      ensures View() == SetTh(old(View()), t, Thread(Runnable, false, false, false, 0, joinable, Fresh))
                        .(activeCount := old(activeCount) + 1, runq := old(runq) + [t])
    {
      activeCount := activeCount + 1;
      threads := threads[t := Thread(Runnable, false, false, false, 0, joinable, Fresh)];
      runq := runq + [t];
    }

    /** A joinable thread exits. */
    method BecomeZombie()
      requires Linked() && current in threads
      modifies this`threads, this`zombieq, this`activeCount
      ensures Linked() && View() == Zombified(old(View())) && threads.Keys == old(threads.Keys)
    {
      activeCount := activeCount - 1;
      Update(current, Record(current).(state := Zombie, at := InExit));
      zombieq := zombieq + [current];
    }

    method ExitCode()
      requires Linked() && current in threads && NextIsRunnable(Leaving(View()))
      requires Record(current).joinable ==> SleepOk(Zombified(View())) && forall t :: t in CondQ(View(), Term(current)) ==> t in threads
      modifies this, sleep.heap, sleep.node.Values
      ensures Linked() && View() == Exit(old(View()))
    {
      if Record(current).joinable {
        BecomeZombie();
        SignalCode(Term(current), false);
        SwitchContext();
      } else {
        activeCount := activeCount - 1;
        threads := threads - {current};
        SwitchContext();
      }
    }

    /** The end of `st_thread_join`. */
    method ReapThread(x: Tid)
      requires Linked() && x in threads
      modifies this`threads, this`zombieq, this`runq
      ensures Linked() && View() == Reap(old(View()), x)
    {
      Update(x, Record(x).(state := Runnable));
      zombieq := Without(zombieq, x);
      runq := runq + [x];
    }

    method JoinCode(x: Tid) returns (r: Result)
      requires Linked() && MayBlock(View()) && x in threads
      modifies this, sleep.heap, sleep.node.Values
      ensures Linked() && (View(), r) == Join(old(View()), x)
    {
      if !Record(x).joinable {
        return Done(-1, EINVAL);
      }
      if current == x {
        return Done(-1, EDEADLK);
      }
      if QueueOf(condq, Term(x)) != [] {
        return Done(-1, EINVAL);
      }
      r := JoinRound(x);
    }

    /** The loop of `st_thread_join`, up to a context switch or its end. */
    method JoinRound(x: Tid) returns (r: Result)
      requires Linked() && x in threads && (Record(x).state == Zombie || MayBlock(View()))
      modifies this, sleep.heap, sleep.node.Values
      ensures Linked() && (View(), r) == JoinLoop(old(View()), x)
    {
      if Record(x).state != Zombie {
        r := WaitCode(Term(x), None, InJoin(x));
      } else {
        ReapThread(x);
        r := OK;
      }
    }

    method YieldCode(now: int) returns (r: Result)
      requires Linked() && current in threads && SleepOk(View()) && !Record(idle).onSleepQ
      requires YieldsToRunnable(CheckClock(View(), now))
      modifies this, sleep.heap, sleep.node.Values
      ensures Linked() && (View(), r) == Yield(old(View()), now)
    {
      ClockKeepsCurrent(View().(lastClock := now), now);
      CheckTheClock(now);
      if runq == [] {
        return OK;
      }
      GiveWay();
      return Blocked;
    }

    /** The running thread goes to the end of the run queue, and its head is switched in. */
    method GiveWay()
      requires Linked() && current in threads && runq != [] && runq[0] != current && Record(runq[0]).state == Runnable
      modifies this`threads, this`runq, this`current
      ensures Linked() && View() == (var s1 := Park(old(View()), Runnable, InYield);
                                     Schedule(s1.(runq := s1.runq + [s1.current])))
    {
      Update(current, Record(current).(state := Runnable, at := InYield));
      runq := runq + [current];
      SwitchContext();
    }

    method InterruptCode(t: Tid)
      requires Linked() && t in threads && (Record(t).onSleepQ ==> Position(View().sleepq, t) > 0)
      modifies this, sleep.heap, sleep.node.Values
      ensures Linked() && View() == Interrupt(old(View()), t)
    {
      if Record(t).state == Zombie {
        return;
      }
      Update(t, Record(t).(interrupt := true));
      if Record(t).state == Running || Record(t).state == Runnable {
        return;
      }
      Wake(t);
    }

    method SleepCode(timeout: Option<nat>) returns (r: Result)
      requires Linked() && MayBlock(View())
      modifies this, sleep.heap, sleep.node.Values
      ensures Linked() && (View(), r) == USleep(old(View()), timeout)
    {
      if Record(current).interrupt {
        ClearInterrupt();
        return Done(-1, EINTR);
      }
      if timeout.Some? {
        Update(current, Record(current).(state := Sleeping, at := InSleep));
        AddToSleepQ(current, timeout.value);
      } else {
        Update(current, Record(current).(state := Suspended, at := InSleep));
      }
      SwitchContext();
      return Blocked;
    }

    // -------------------------------------------------------------- condition variables

    /** `st_cond_timedwait` up to the context switch. */
    method WaitCode(c: CondId, timeout: Option<nat>, at: Resume) returns (r: Result)
      requires Linked() && MayBlock(View())
      modifies this, sleep.heap, sleep.node.Values
      ensures Linked() && (View(), r) == Wait(old(View()), c, timeout, at)
    {
      if Record(current).interrupt {
        ClearInterrupt();
        return Done(-1, EINTR);
      }
      LinkToCond(c, at);
      AddToSleepQUnlessForever(current, timeout);
      SwitchContext();
      return Blocked;
    }

    method LinkToCond(c: CondId, at: Resume)
      requires Linked() && current in threads
      modifies this`threads, this`condq
      ensures Linked()
      ensures View() == (var s1 := Park(old(View()), State.CondWait, at); s1.(condq := s1.condq[c := CondQ(s1, c) + [s1.current]]))
    {
      Update(current, Record(current).(state := State.CondWait, at := at));
      condq := condq[c := QueueOf(condq, c) + [current]];
    }

    /** `_st_cond_signal`. */
    method SignalCode(c: CondId, broadcast: bool)
      requires Linked() && SleepOk(View()) && forall t :: t in CondQ(View(), c) ==> t in threads
      modifies this`threads, this`runq, sleep.heap, sleep.node.Values
      ensures Linked() && View() == Signal(old(View()), c, broadcast)
    {
      var q := QueueOf(condq, c);
      ghost var all := SignalFrom(View(), q, broadcast);
      var i := 0;
      assert q[0..] == q;
      while i < |q|
        invariant 0 <= i <= |q|
        invariant Linked() && SleepOk(View()) && threads.Keys == old(threads.Keys)
        invariant SignalFrom(View(), q[i..], broadcast) == all
      {
        assert q[i..][1..] == q[i + 1..];
        if Record(q[i]).state == State.CondWait {
          WakeSleeper(q[i]);
          if !broadcast {
            return;
          }
        }
        i := i + 1;
      }
    }

    /** A thread that sleeps is in the heap, from which its waker takes it. */
    method WakeSleeper(t: Tid)
      requires Linked() && t in threads && SleepOk(View())
      modifies this`threads, this`runq, sleep.heap, sleep.node.Values
      ensures Linked() && SleepOk(View()) && threads.Keys == old(threads.Keys)
      ensures View() == MakeRunnable(old(View()), t)
    {
      AwakeHasNoPosition(View(), t);
      MakeRunnableEffect(View(), t);
      Wake(t);
    }

    // -------------------------------------------------------------- mutexes

    /** `st_mutex_lock` up to the context switch. */
    method LockCode(m: nat) returns (r: Result)
      requires Linked() && MayBlock(View())
      modifies this
      ensures Linked() && (View(), r) == Lock(old(View()), m)
    {
      if Record(current).interrupt {
        ClearInterrupt();
        return Done(-1, EINTR);
      }
      if m !in owner {
        owner := owner[m := current];
        return OK;
      }
      if owner[m] == current {
        return Done(-1, EDEADLK);
      }
      Update(current, Record(current).(state := LockWait, at := InLock(m)));
      lockq := lockq[m := QueueOf(lockq, m) + [current]];
      SwitchContext();
      return Blocked;
    }

    /** `st_mutex_unlock`: the loop over the queue of the mutex. */
    method UnlockCode(m: nat) returns (r: Result)
      requires Linked() && forall t :: t in LockQ(View(), m) ==> t in threads
      modifies this
      ensures Linked() && (View(), r) == Unlock(old(View()), m)
    {
      if m !in owner || owner[m] != current {
        return Done(-1, EPERM);
      }
      var q := QueueOf(lockq, m);
      var i := 0;
      assert q[0..] == q;
      while i < |q|
        invariant 0 <= i <= |q|
        invariant Linked() && View() == old(View())
        invariant FirstWaiter(View(), q) == i + FirstWaiter(View(), q[i..])
      {
        var t := q[i];
        assert q[i..][1..] == q[i + 1..];
        if Record(t).state == LockWait {
          owner := owner[m := t];
          Update(t, Record(t).(state := Runnable));
          runq := runq + [t];
          return OK;
        }
        i := i + 1;
      }
      owner := owner - {m};
      return OK;
    }

    method TryLockCode(m: nat) returns (r: Result)
      requires Linked()
      modifies this`owner
      ensures Linked() && (View(), r) == TryLock(old(View()), m)
    {
      if m in owner {
        return Done(-1, EBUSY);
      }
      owner := owner[m := current];
      return OK;
    }

    // -------------------------------------------------------------- I/O

    /** `st_poll` up to the context switch. */
    method PollCode(pds: seq<Pollfd>, timeout: Option<nat>, refused: set<int>) returns (r: Result)
      requires Linked() && MayBlock(View())
      modifies this, ep, sleep.heap, sleep.node.Values
      ensures Linked() && (View(), r) == Poll(old(View()), pds, timeout, refused)
    {
      if Record(current).interrupt {
        ClearInterrupt();
        return Done(-1, EINTR);
      }
      var added := ep.PollsetAdd(pds, refused);
      if added != Added {
        return Done(-1, if added == Invalid then EINVAL else EPoll);
      }
      BlockOnIo(pds, timeout);
      return Blocked;
    }

    method BlockOnIo(pds: seq<Pollfd>, timeout: Option<nat>)
      requires Linked() && MayBlock(View())
      modifies this`threads, this`ioq, this`runq, this`current, sleep.heap, sleep.node.Values
      ensures Linked()
      ensures View() == (var s := old(View());
                         var s1 := Park(s, IoWait, InPoll(pds, true)).(ioq := s.ioq + [s.current]);
                         Schedule(AddSleepQIf(s1, s.current, timeout)))
    {
      LinkToIoq(pds);
      AddToSleepQUnlessForever(current, timeout);
      SwitchContext();
    }

    method LinkToIoq(pds: seq<Pollfd>)
      requires Linked() && current in threads
      modifies this`threads, this`ioq
      ensures Linked() && View() == Park(old(View()), IoWait, InPoll(pds, true)).(ioq := old(ioq) + [current])
    {
      ioq := ioq + [current];
      Update(current, Record(current).(state := IoWait, at := InPoll(pds, true)));
    }

    /** The inner loop of dispatch: the `revents` of every descriptor, and whether any is set. */
    method Collect(pds: seq<Pollfd>) returns (r: seq<Pollfd>, notify: bool)
      ensures r == WithRevents(ep.View(), pds)
      ensures notify <==> ReadyCount(r) > 0
      ensures forall i :: 0 <= i < |pds| ==>
                var ev, got := Data(ep.View(), pds[i].fd).revents, r[i].revents;
                && (got.rd <==> pds[i].events.rd && ev.rd) && (got.wr <==> pds[i].events.wr && ev.wr)
                && (got.pri <==> pds[i].events.pri && ev.pri) && got.err == ev.err && got.hup == ev.hup
    {
      var i := 0;
      r, notify := [], false;
      while i < |pds|
        invariant 0 <= i <= |pds|
        invariant r == WithRevents(ep.View(), pds[..i])
        invariant notify <==> ReadyCount(r) > 0
      {
        var ev := Data(ep.View(), pds[i].fd).revents;
        var want := pds[i].events;
        var got := NO_EVENTS;
        if ev != NO_EVENTS {
          got := Events(want.rd && ev.rd, want.wr && ev.wr, want.pri && ev.pri, ev.err, ev.hup);
          if got != NO_EVENTS {
            notify := true;
          }
        }
        assert (r + [pds[i].(revents := got)])[..i] == r;
        r := r + [pds[i].(revents := got)];
        i := i + 1;
      }
      assert pds[..|pds|] == pds;
    }

    /** The body of the loop of dispatch over the io queue. */
    method Visit(t: Tid)
      requires Linked() && t in threads && (Record(t).onSleepQ ==> Position(View().sleepq, t) > 0)
      modifies this, ep, sleep.heap, sleep.node.Values
      ensures Linked() && View() == DispatchOne(old(View()), t)
    {
      var pds, notify := Collect(if Record(t).at.InPoll? then Record(t).at.pds else []);
      Update(t, Record(t).(at := InPoll(pds, !notify)));
      if notify {
        LeaveIoq(t, pds);
        Wake(t);
      }
    }

    method LeaveIoq(t: Tid, pds: seq<Pollfd>)
      requires Linked()
      modifies this`ioq, ep
      ensures Linked() && View() == old(View()).(ioq := Without(old(ioq), t), ep := DelAll(old(ep.View()), pds))
    {
      ioq := Without(ioq, t);
      ep.PollsetDel(pds);
    }

    /** The loop of dispatch over the io queue. */
    method VisitAll(q: seq<Tid>)
      requires Linked() && SleepOk(View()) && forall t :: t in q ==> t in threads
      modifies this, ep, sleep.heap, sleep.node.Values
      ensures Linked() && View() == DispatchAll(old(View()), q)
    {
      var i := 0;
      ghost var was := View();
      assert q[..0] == [];
      while i < |q|
        invariant 0 <= i <= |q|
        invariant Linked() && SleepOk(View()) && threads.Keys == old(threads.Keys)
        invariant View() == DispatchAll(was, q[..i])
      {
        DispatchOneMore(was, q, i);
        VisitSleeper(q[i]);
        i := i + 1;
      }
      assert q[..|q|] == q;
    }

    method VisitSleeper(t: Tid)
      requires Linked() && SleepOk(View()) && t in threads
      modifies this, ep, sleep.heap, sleep.node.Values
      ensures Linked() && SleepOk(View()) && threads.Keys == old(threads.Keys)
      ensures View() == DispatchOne(old(View()), t)
    {
      AwakeHasNoPosition(View(), t);
      DispatchOneSleeps(View(), t);
      Visit(t);
    }

    /** `_st_epoll_dispatch` after epoll_wait. */
    method DispatchFired(fired: seq<Fired>)
      requires Linked() && SleepOk(View()) && forall t :: t in ioq ==> t in threads
      modifies this, ep, sleep.heap, sleep.node.Values
      ensures Linked() && View() == Dispatch(old(View()), fired)
    {
      if fired == [] {
        return;
      }
      StoreFired(fired);
      VisitAll(ioq);
      ep.SettleFired(fired);
    }

    method StoreFired(fired: seq<Fired>)
      requires Linked() && SleepOk(View())
      modifies ep
      ensures Linked() && SleepOk(View()) && View() == old(View()).(ep := Mark(old(ep.View()), fired))
    {
      ep.StoreEvents(fired);
      SleepFrame(old(View()), View());
    }

    /** One round of `_st_idle_thread_start`, which the idle thread runs. */
    method IdleCode(now: int, fired: seq<Fired>)
      requires Linked() && current == idle && SleepOk(View()) && forall t :: t in ioq ==> t in threads
      requires activeCount > 0 ==> IdleMaySwitch(Dispatch(View(), fired), now)
      modifies this, ep, sleep.heap, sleep.node.Values
      ensures Linked() && View() == IdleRound(old(View()), now, fired)
    {
      if activeCount <= 0 {
        exited := true;
        return;
      }
      DispatchFired(fired);
      CheckTheClock(now);
      Update(current, Record(current).(state := Runnable, at := InIdle));
      SwitchContext();
    }

    // -------------------------------------------------------------- after the context switch

    method Return()
      requires Linked() && current in threads
      modifies this`threads
      ensures Linked() && View() == Continue(old(View()))
    {
      Update(current, Record(current).(at := Active));
    }

    /** The end of `st_cond_timedwait`. */
    method CondReturn(c: CondId) returns (r: Result)
      requires Linked() && current in threads
      modifies this`threads, this`condq
      ensures Linked() && (View(), r) == AfterWait(old(View()), c)
    {
      condq := condq[c := Without(QueueOf(condq, c), current)];
      r := OK;
      if Record(current).timedOut {
        r := Done(-1, ETIME);
      }
      if Record(current).interrupt {
        r := Done(-1, EINTR);
      }
      Update(current, Record(current).(at := Active, timedOut := false, interrupt := false));
    }

    method CountReady(pds: seq<Pollfd>) returns (n: nat)
      ensures n == ReadyCount(pds)
    {
      n := 0;
      var i := 0;
      while i < |pds|
        invariant 0 <= i <= |pds|
        invariant n == ReadyCount(pds[..i])
      {
        assert pds[..i + 1][..i] == pds[..i];
        if pds[i].revents != NO_EVENTS {
          n := n + 1;
        }
        i := i + 1;
      }
      assert pds[..|pds|] == pds;
    }

    /** The end of `st_poll`. */
    method PollReturn(pds: seq<Pollfd>, onIoq: bool) returns (r: Result)
      requires Linked() && current in threads && Record(current).at == InPoll(pds, onIoq)
      modifies this, ep
      ensures Linked() && (View(), r) == Resumed(old(View()))
    {
      var n := 0;
      if onIoq {
        LeaveIoq(current, pds);
      } else {
        n := CountReady(pds);
      }
      r := if Record(current).interrupt then Done(-1, EINTR) else Done(n, NoError);
      ReturnUninterrupted();
    }

    /** The end of a call that takes a pending interrupt. */
    method ReturnUninterrupted()
      requires Linked() && current in threads
      modifies this`threads
      ensures Linked() && View() == Continue(TakeInterrupt(old(View())))
    {
      UpdateTwice(threads, current, Record(current).(interrupt := false), Record(current).(interrupt := false, at := Active));
      Update(current, Record(current).(interrupt := false, at := Active));
    }

    /** The end of `st_mutex_lock`. */
    method LockReturn(m: nat) returns (r: Result)
      requires Linked() && current in threads && Record(current).at == InLock(m)
      modifies this
      ensures Linked() && (View(), r) == Resumed(old(View()))
    {
      lockq := lockq[m := Without(QueueOf(lockq, m), current)];
      if Record(current).interrupt && !(m in owner && owner[m] == current) {
        ClearInterrupt();
        Return();
        return Done(-1, EINTR);
      }
      Return();
      return OK;
    }

    /** The end of `st_usleep`. */
    method SleepReturn() returns (r: Result)
      requires Linked() && current in threads && Record(current).at == InSleep
      modifies this
      ensures Linked() && (View(), r) == Resumed(old(View()))
    {
      r := if Record(current).interrupt then Done(-1, EINTR) else OK;
      ReturnUninterrupted();
    }

    /** The end of `st_thread_join` after its wait. */
    method JoinReturn(x: Tid) returns (r: Result)
      requires Linked() && current in threads && Record(current).at == InJoin(x)
      requires AfterWait(View(), Term(x)).1 == OK ==> x in threads && x != current && Record(x).state == Zombie
      modifies this, sleep.heap, sleep.node.Values
      ensures Linked() && (View(), r) == Resumed(old(View()))
    {
      r := CondReturn(Term(x));
      if r == OK {
        r := JoinRound(x);
      }
    }

    /** The last part of `st_thread_exit`. */
    method Disappear()
      requires Linked() && current in threads && Record(current).at == InExit && NextIsRunnable(Vanish(View()))
      modifies this
      ensures Linked() && (View(), Blocked) == Resumed(old(View()))
    {
      threads := threads - {current};
      SwitchContext();
    }

    /** What the thread that was switched in does until its call returns. */
    method ResumeCode() returns (r: Result)
      requires Linked() && current in threads && MayResume(View())
      modifies this, ep, sleep.heap, sleep.node.Values
      ensures Linked() && (View(), r) == Resumed(old(View()))
    {
      match Record(current).at
      case InPoll(pds, onIoq) => r := PollReturn(pds, onIoq);
      case InSleep => r := SleepReturn();
      case InCond(c) => r := CondReturn(c);
      case InJoin(x) => r := JoinReturn(x);
      case InLock(m) => r := LockReturn(m);
      case InExit => Disappear(); r := Blocked;
      case _ => Return(); r := OK;
    }

    // -------------------------------------------------------------- the calls, and what they promise

    /** `st_thread_create`. */
    method CreateThread(joinable: bool) returns (t: Tid)
      requires Valid() && UserRuns(View())
      modifies this, sleep`node
      ensures Valid() && View() == Create(old(View()), joinable)
      ensures CreatePromise(old(View()), View(), t, joinable)
      ensures fresh(sleep.node.Values - old(sleep.node.Values))
    {
      CreateCall(View(), joinable);
      t := CreateCode(joinable);
    }

    /** `st_thread_exit`; the source leaves it to the program to hold no mutex. */
    method ExitThread()
      requires Valid() && UserRuns(View()) && HoldsNothing(View())
      modifies this, sleep.heap, sleep.node.Values
      ensures Valid() && View() == Exit(old(View()))
      ensures ExitPromise(old(View()), View())
    {
      ExitCall(View());
      ExitCode();
    }

    /** `st_thread_join`. */
    method JoinThread(x: Tid) returns (r: Result)
      requires Valid() && UserRuns(View()) && x in threads
      modifies this, sleep.heap, sleep.node.Values
      ensures Valid() && (View(), r) == Join(old(View()), x)
      ensures JoinPromise(old(View()), View(), r, x)
    {
      JoinCall(View(), x);
      r := JoinCode(x);
    }

    /** `st_thread_yield`. */
    method YieldThread(now: int) returns (r: Result)
      requires Valid() && UserRuns(View())
      modifies this, sleep.heap, sleep.node.Values
      ensures Valid() && (View(), r) == Yield(old(View()), now)
      ensures YieldPromise(old(View()), View(), r, now)
    {
      YieldCall(View(), now);
      r := YieldCode(now);
    }

    /** `st_thread_interrupt`. */
    method InterruptThread(t: Tid)
      requires Valid() && UserRuns(View()) && t in threads && t != idle
      modifies this, sleep.heap, sleep.node.Values
      ensures Valid() && View() == Interrupt(old(View()), t)
      ensures InterruptPromise(old(View()), View(), t)
    {
      InterruptCall(View(), t);
      InterruptCode(t);
    }

    /** `st_usleep`. */
    method Sleep(timeout: Option<nat>) returns (r: Result)
      requires Valid() && UserRuns(View())
      modifies this, sleep.heap, sleep.node.Values
      ensures Valid() && (View(), r) == USleep(old(View()), timeout)
      ensures SleepPromise(old(View()), View(), r, timeout)
    {
      SleepCall(View(), timeout);
      r := SleepCode(timeout);
    }

    /** `st_cond_timedwait`. */
    method CondWait(c: nat, timeout: Option<nat>) returns (r: Result)
      requires Valid() && UserRuns(View())
      modifies this, sleep.heap, sleep.node.Values
      ensures Valid() && (View(), r) == Wait(old(View()), User(c), timeout, InCond(User(c)))
      ensures WaitPromise(old(View()), View(), r, User(c), timeout, InCond(User(c)))
    {
      WaitCall(View(), c, timeout);
      r := WaitCode(User(c), timeout, InCond(User(c)));
    }

    /** `st_cond_signal` and `st_cond_broadcast`. */
    method CondSignal(c: nat, broadcast: bool)
      requires Valid() && UserRuns(View())
      modifies this, sleep.heap, sleep.node.Values
      ensures Valid() && View() == Signal(old(View()), User(c), broadcast)
      ensures SignalPromise(old(View()), View(), c, broadcast)
    {
      SignalCall(View(), c, broadcast);
      SignalCode(User(c), broadcast);
    }

    /** `st_mutex_lock`. */
    method MutexLock(m: nat) returns (r: Result)
      requires Valid() && UserRuns(View())
      modifies this
      ensures Valid() && (View(), r) == Lock(old(View()), m)
      ensures LockPromise(old(View()), View(), r, m)
    {
      LockCall(View(), m);
      r := LockCode(m);
    }

    /** `st_mutex_unlock`. */
    method MutexUnlock(m: nat) returns (r: Result)
      requires Valid() && UserRuns(View())
      modifies this
      ensures Valid() && (View(), r) == Unlock(old(View()), m)
      ensures UnlockPromise(old(View()), View(), r, m)
    {
      UnlockCall(View(), m);
      r := UnlockCode(m);
    }

    /** `st_mutex_trylock`. */
    method MutexTryLock(m: nat) returns (r: Result)
      requires Valid() && UserRuns(View())
      modifies this
      ensures Valid() && (View(), r) == TryLock(old(View()), m)
      ensures TryLockPromise(old(View()), View(), r, m)
    {
      TryLockCall(View(), m);
      r := TryLockCode(m);
    }

    /** `st_poll`. */
    method PollFds(pds: seq<Pollfd>, timeout: Option<nat>, refused: set<int>) returns (r: Result)
      requires Valid() && UserRuns(View())
      modifies this, ep, sleep.heap, sleep.node.Values
      ensures Valid() && (View(), r) == Poll(old(View()), pds, timeout, refused)
      ensures PollPromise(old(View()), View(), r, pds, timeout, refused)
    {
      PollCall(View(), pds, timeout, refused);
      r := PollCode(pds, timeout, refused);
    }

    /** One round of `_st_idle_thread_start`. */
    method Idle(now: int, fired: seq<Fired>)
      requires Valid() && !exited && current == idle && MayFire(ep.View(), fired)
      modifies this, ep, sleep.heap, sleep.node.Values
      ensures Valid() && View() == IdleRound(old(View()), now, fired)
      ensures IdlePromise(old(View()), View(), now, fired)
    {
      IdleCall(View(), now, fired);
      IdleCode(now, fired);
    }

    /** The thread that was switched in goes on with its call, up to the return of the call. */
    method Resume() returns (r: Result)
      requires Valid() && !exited && current != idle && Record(current).at != Active
      modifies this, ep, sleep.heap, sleep.node.Values
      ensures Valid() && (View(), r) == Resumed(old(View()))
      ensures ReturnPromise(old(View()), View(), r)
    {
      ReturnCall(View());
      r := ResumeCode();
    }

    /** `st_init`. */
    static method Start(clock: int) returns (vp: Vp)
      ensures fresh(vp) && fresh(vp.ep) && fresh(vp.sleep) && fresh(vp.sleep.heap) && fresh(vp.sleep.node.Values)
      ensures vp.Valid() && vp.View() == SchedRuns.Init(clock) && UserRuns(vp.View())
    {
      vp := new Vp(clock);
      InitKeeps(clock);
    }

    /** Any step of a run, as the object takes it. */
    method Do(step: Step) returns (r: Result)
      requires Valid() && Enabled(View(), step)
      modifies this, ep, sleep`node, sleep.heap, sleep.node.Values
      ensures Valid() && (View(), r) == Apply(old(View()), step)
      ensures fresh(sleep.node.Values - old(sleep.node.Values))
    {
      if IsMutexStep(step) {
        r := DoMutex(step);
      } else if IsTimedStep(step) {
        r := DoTimed(step);
      } else {
        r := DoOther(step);
      }
    }

    static predicate IsMutexStep(step: Step) {
      step.DoLock? || step.DoUnlock? || step.DoTryLock?
    }

    /** The steps that work on the records and the timeout heap alone. */
    static predicate IsTimedStep(step: Step) {
      step.DoExit? || step.DoJoin? || step.DoUSleep? || step.DoCondWait? || step.DoCondSignal? || step.DoYield? || step.DoInterrupt?
    }

    method DoOther(step: Step) returns (r: Result)
      requires Valid() && Enabled(View(), step) && !IsMutexStep(step) && !IsTimedStep(step)
      modifies this, ep, sleep`node, sleep.heap, sleep.node.Values
      ensures Valid() && (View(), r) == Apply(old(View()), step)
      ensures fresh(sleep.node.Values - old(sleep.node.Values))
    {
      if step.DoCreate? {
        var t := CreateThread(step.joinable);
        r := OK;
      } else if step.DoResume? {
        r := Resume();
      } else {
        r := DoIo(step);
      }
    }

    method DoIo(step: Step) returns (r: Result)
      requires Valid() && Enabled(View(), step) && (step.DoPoll? || step.DoIdle?)
      modifies this, ep, sleep.heap, sleep.node.Values
      ensures Valid() && (View(), r) == Apply(old(View()), step)
    {
      match step
      case DoPoll(pds, timeout, refused) => r := PollFds(pds, timeout, refused);
      case DoIdle(now, fired) => Idle(now, fired); r := Blocked;
    }

    method DoMutex(step: Step) returns (r: Result)
      requires Valid() && Enabled(View(), step) && IsMutexStep(step)
      modifies this
      ensures Valid() && (View(), r) == Apply(old(View()), step)
    {
      match step
      case DoLock(m) => r := MutexLock(m);
      case DoUnlock(m) => r := MutexUnlock(m);
      case DoTryLock(m) => r := MutexTryLock(m);
    }

    method DoTimed(step: Step) returns (r: Result)
      requires Valid() && Enabled(View(), step) && IsTimedStep(step)
      modifies this, sleep.heap, sleep.node.Values
      ensures Valid() && (View(), r) == Apply(old(View()), step)
    {
      match step
      case DoExit => ExitThread(); r := Blocked;
      case DoJoin(x) => r := JoinThread(x);
      case DoUSleep(timeout) => r := Sleep(timeout);
      case DoCondWait(c, timeout) => r := CondWait(c, timeout);
      case DoCondSignal(c, broadcast) => CondSignal(c, broadcast); r := OK;
      case DoYield(now) => r := YieldThread(now);
      case DoInterrupt(t) => InterruptThread(t); r := OK;
    }
  }
}
