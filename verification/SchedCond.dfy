/**
  Which threads the signals of a condition variable wake, and in which order.
 */
module SchedCond {
  import opened Wrappers
  import opened TimeoutHeapSpec
  import opened Epoll
  import opened Sched
  import opened SchedInv

  /** The threads of q that still wait for a signal, in order. */
  function Waiters(s: Sched, q: seq<Tid>): seq<Tid> {
    if q == [] then []
    else if Th(s, q[0]).state == CondWait then [q[0]] + Waiters(s, q[1..])
    else Waiters(s, q[1..])
  }

  /** Every thread in w becomes runnable, in order; no other thread changes. */
  ghost predicate WokenAll(s: Sched, s': Sched, w: seq<Tid>) {
    && s' == s.(threads := s'.threads, sleepq := s'.sleepq, runq := s.runq + w)
    && s'.threads.Keys == s.threads.Keys
    && (forall t :: t in w ==> Th(s', t) == Th(s, t).(state := Runnable, onSleepQ := false))
    && (forall t :: t !in w ==> Th(s', t) == Th(s, t))
  }

  lemma WokenThenMore(s: Sched, s1: Sched, s2: Sched, w1: seq<Tid>, w2: seq<Tid>)
    requires WokenAll(s, s1, w1) && WokenAll(s1, s2, w2)
    requires forall t :: t in w2 ==> t !in w1
    ensures WokenAll(s, s2, w1 + w2)
  {
    assert (s.runq + w1) + w2 == s.runq + (w1 + w2);
  }

  lemma MakeRunnableWakes(s: Sched, t: Tid)
    requires SleepOk(s) && t in s.threads
    ensures WokenAll(s, MakeRunnable(s, t), [t]) && SleepOk(MakeRunnable(s, t))
  {
    MakeRunnableEffect(s, t);
  }

  lemma {:induction false} WaitersIn(s: Sched, q: seq<Tid>)
    ensures forall t :: t in Waiters(s, q) <==> t in q && Th(s, t).state == CondWait
  {
    if q != [] {
      assert q == [q[0]] + q[1..];
      WaitersIn(s, q[1..]);
    }
  }

  lemma {:induction false} WaitersFrame(s: Sched, s': Sched, q: seq<Tid>)
    requires forall t :: t in q ==> (Th(s', t).state == CondWait <==> Th(s, t).state == CondWait)
    ensures Waiters(s', q) == Waiters(s, q)
  {
    if q != [] {
      WaitersFrame(s, s', q[1..]);
    }
  }

  /** `_st_cond_signal` wakes the first waiter, a broadcast wakes all of them; waiters still linked but already woken are skipped. */
  lemma {:induction false} SignalWakes(s: Sched, q: seq<Tid>, broadcast: bool)
    requires SleepOk(s) && Distinct(q) && forall t :: t in q ==> t in s.threads
    ensures var s' := SignalFrom(s, q, broadcast); var w := Waiters(s, q);
            WokenAll(s, s', if broadcast || w == [] then w else [w[0]]) && SleepOk(s')
    decreases |q|
  {
    if q == [] {
      assert s.runq + [] == s.runq;
    } else {
      DistinctTail(q);
      if Th(s, q[0]).state != CondWait {
        SignalWakes(s, q[1..], broadcast);
      } else {
        var s1 := MakeRunnable(s, q[0]);
        MakeRunnableWakes(s, q[0]);
        if broadcast {
          SignalWakes(s1, q[1..], true);
          WaitersFrame(s, s1, q[1..]);
          WaitersIn(s, q[1..]);
          WokenThenMore(s, s1, SignalFrom(s1, q[1..], true), [q[0]], Waiters(s, q[1..]));
        }
      }
    }
  }

  /** Waking the first waiter leaves the others in order. */
  lemma {:induction false} WaitersAfterFirst(s: Sched, s': Sched, q: seq<Tid>)
    requires Distinct(q) && Waiters(s, q) != []
    requires var t := Waiters(s, q)[0];
             Th(s', t).state != CondWait && forall x :: x != t ==> Th(s', x).state == Th(s, x).state
    ensures Waiters(s', q) == Waiters(s, q)[1..]
  {
    DistinctTail(q);
    if Th(s, q[0]).state == CondWait {
      WaitersFrame(s, s', q[1..]);
    } else {
      WaitersIn(s, q[1..]);
      WaitersAfterFirst(s, s', q[1..]);
    }
  }
}
