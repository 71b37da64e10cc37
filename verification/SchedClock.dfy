/**
  What `_st_vp_check_clock` does to the timeout heap, the run queue and the threads.
 */
module SchedClock {
  import opened Wrappers
  import opened TimeoutHeapSpec
  import opened Epoll
  import opened Sched
  import opened SchedInv

  /** The threads that `_st_vp_check_clock` takes from the heap, the last one taken first. */
  function Expired(h: Heap<Tid>, now: int): seq<Timed<Tid>>
    decreases |h|
  {
    if h == [] || h[0].due > now then [] else Expired(HeapDelete(h, 1), now) + [h[0]]
  }

  function Left(h: Heap<Tid>, now: int): Heap<Tid>
    decreases |h|
  {
    if h == [] || h[0].due > now then h else Left(HeapDelete(h, 1), now)
  }

  function Items(q: seq<Timed<Tid>>): (r: seq<Tid>)
    ensures |r| == |q|
    ensures forall i :: 0 <= i < |q| ==> r[i] == q[i].item
  {
    seq(|q|, i requires 0 <= i < |q| => q[i].item)
  }

  lemma RootIsLeast(h: Heap<Tid>)
    requires Ordered(h) && h != []
    ensures forall e :: e in h ==> h[0].due <= e.due
  {
    forall e | e in h
      ensures h[0].due <= e.due
    {
      var i :| 0 <= i < |h| && h[i] == e;
      RootIsEarliest(h, i + 1);
      assert At(h, i + 1) == e && At(h, 1) == h[0];
    }
  }

  /** Each element either leaves the heap, once, or stays. */
  lemma {:induction false} ExpiredContents(h: Heap<Tid>, now: int)
    ensures multiset(Expired(h, now)) + multiset(Left(h, now)) == multiset(h)
    decreases |h|
  {
    if !(h == [] || h[0].due > now) {
      DeleteContents(h, 1);
      assert At(h, 1) == h[0];
      ExpiredContents(HeapDelete(h, 1), now);
    }
  }

  lemma AfterRoot(h: Heap<Tid>)
    requires Ordered(h) && h != []
    ensures Ordered(HeapDelete(h, 1))
    ensures forall e :: e in HeapDelete(h, 1) ==> e.due >= h[0].due
  {
    DeleteOrder(h, 1);
    DeleteContents(h, 1);
    RootIsLeast(h);
    forall e | e in HeapDelete(h, 1)
      ensures e in h
    {
      assert e in multiset(HeapDelete(h, 1));
      assert e in multiset(h);
    }
  }

  lemma ExpiredAfter(h: Heap<Tid>, now: int)
    ensures forall e :: e in Expired(h, now) ==> e in h
    ensures forall e :: e in Left(h, now) ==> e in h
  {
    ExpiredContents(h, now);
    forall e | e in Expired(h, now) || e in Left(h, now)
      ensures e in h
    {
      assert e in multiset(Expired(h, now)) || e in multiset(Left(h, now));
      assert e in multiset(h);
    }
  }

  /** Exactly the due elements leave the heap, in non-decreasing order of their due times. */
  lemma {:induction false} ExpiredIsExact(h: Heap<Tid>, now: int)
    requires Ordered(h)
    ensures forall e :: e in Expired(h, now) ==> e.due <= now
    ensures forall e :: e in Left(h, now) ==> e.due > now
    ensures forall i, j :: 0 <= i < j < |Expired(h, now)| ==> Expired(h, now)[i].due >= Expired(h, now)[j].due
    ensures Ordered(Left(h, now))
    decreases |h|
  {
    if h == [] {
    } else if h[0].due > now {
      RootIsLeast(h);
    } else {
      var rest := HeapDelete(h, 1);
      AfterRoot(h);
      ExpiredIsExact(rest, now);
      ExpiredAfter(rest, now);
      assert forall i :: 0 <= i < |Expired(rest, now)| ==> Expired(rest, now)[i] in rest;
    }
  }

  // ---- effect on threads

  /** What the clock check does to the record of a thread whose time has come. */
  function TimedOutThread(th: Thread): Thread {
    th.(state := Runnable, onSleepQ := false, timedOut := th.timedOut || th.state == CondWait)
  }

  /** The threads in `gone` have been moved before the run queue; no other thread changes. */
  ghost predicate TimedOut(s: Sched, s': Sched, gone: seq<Tid>, sleepq: Heap<Tid>) {
    && s' == s.(threads := s'.threads, sleepq := sleepq, runq := gone + s.runq)
    && s'.threads.Keys == s.threads.Keys
    && (forall t :: t in gone ==> Th(s', t) == TimedOutThread(Th(s, t)))
    && (forall t :: t !in gone ==> Th(s', t) == Th(s, t))
  }

  lemma RootTimedOut(s: Sched)
    requires SleepOk(s) && s.sleepq != []
    ensures TimedOut(s, ExpireRoot(s), [s.sleepq[0].item], HeapDelete(s.sleepq, 1))
    ensures !Th(ExpireRoot(s), s.sleepq[0].item).onSleepQ
  {
    ExpireRootEffect(s);
    assert ExpireRoot(s).threads.Keys == s.threads.Keys;
  }

  lemma TimedOutThenMore(s: Sched, s1: Sched, s': Sched, t: Tid, gone: seq<Tid>, q1: Heap<Tid>, q2: Heap<Tid>)
    requires TimedOut(s, s1, [t], q1) && TimedOut(s1, s', gone, q2) && t !in gone
    ensures TimedOut(s, s', gone + [t], q2)
  {
    assert gone + ([t] + s.runq) == (gone + [t]) + s.runq;
  }

  /**
    `_st_vp_check_clock`: the expired threads are put before the old run queue, latest due first;
    each becomes runnable, with the time-out mark iff it waited on a condition; no other thread changes.
   */
  lemma {:induction false} ExpireEffect(s: Sched, now: int)
    requires SleepOk(s)
    ensures TimedOut(s, Expire(s, now), Items(Expired(s.sleepq, now)), Left(s.sleepq, now))
    decreases |s.sleepq|
  {
    var h := s.sleepq;
    if h == [] || h[0].due > now {
      assert [] + s.runq == s.runq;
    } else {
      var s1 := ExpireRoot(s);
      RootTimedOut(s);
      ExpireRootEffect(s);
      ExpireEffect(s1, now);
      GoneIsAsleep(s1, now);
      var gone := Items(Expired(s1.sleepq, now));
      assert Items(Expired(h, now)) == gone + [h[0].item];
      TimedOutThenMore(s, s1, Expire(s, now), h[0].item, gone, s1.sleepq, Left(s1.sleepq, now));
    }
  }

  /**
    The whole of `_st_vp_check_clock`: exactly the threads due at or before `now` leave the heap
    and are put before the old run queue in non-increasing due order; every thread left is due later.
   */
  lemma CheckClockExact(s: Sched, now: int)
    requires Quiet(s) && OneRuns(s)
    ensures var s' := CheckClock(s, now); var gone := Expired(s.sleepq, now);
            && s'.lastClock == now
            && s'.runq == Items(gone) + s.runq
            && multiset(gone) + multiset(s'.sleepq) == multiset(s.sleepq)
            && (forall i, j :: 0 <= i < j < |gone| ==> gone[i].due >= gone[j].due)
            && (forall e :: e in gone ==> e.due <= now)
            && (forall e :: e in s'.sleepq ==> e.due > now)
            && (forall t :: t in s.threads ==> (t in Items(gone) <==> s.threads[t].onSleepQ && s.threads[t].due <= now))
            && (forall t :: Th(s', t) == if t in Items(gone) then TimedOutThread(Th(s, t)) else Th(s, t))
  {
    ClockIsIrrelevant(s, now);
    ExpireEffect(s.(lastClock := now), now);
    ExpiredIsExact(s.sleepq, now);
    ExpiredContents(s.sleepq, now);
    forall t | t in s.threads
      ensures t in Items(Expired(s.sleepq, now)) <==> s.threads[t].onSleepQ && s.threads[t].due <= now
    {
      GoneIff(s, now, t);
    }
  }

  lemma GoneIff(s: Sched, now: int, t: Tid)
    requires SleepOk(s) && t in s.threads
    ensures t in Items(Expired(s.sleepq, now)) <==> Th(s, t).onSleepQ && Th(s, t).due <= now
  {
    ExpiredIsExact(s.sleepq, now);
    ExpiredAfter(s.sleepq, now);
    if Th(s, t).onSleepQ && Th(s, t).due <= now {
      DueIsGone(s, now, t);
    }
    ItemsOf(Expired(s.sleepq, now), t);
  }

  lemma ItemsOf(q: seq<Timed<Tid>>, t: Tid)
    ensures t in Items(q) <==> exists e :: e in q && e.item == t
  {
    if t in Items(q) {
      var i :| 0 <= i < |q| && Items(q)[i] == t;
      assert q[i] in q && q[i].item == t;
    }
    if exists e :: e in q && e.item == t {
      var e :| e in q && e.item == t;
      var i :| 0 <= i < |q| && q[i] == e;
      assert Items(q)[i] == t;
    }
  }

  lemma DueIsGone(s: Sched, now: int, t: Tid)
    requires SleepOk(s) && t in s.threads && Th(s, t).onSleepQ && Th(s, t).due <= now
    ensures Timed(t, Th(s, t).due) in Expired(s.sleepq, now)
  {
    var e := Timed(t, Th(s, t).due);
    ExpiredIsExact(s.sleepq, now);
    ExpiredContents(s.sleepq, now);
    assert e in multiset(s.sleepq);
    assert e !in Left(s.sleepq, now);
    assert e in multiset(Expired(s.sleepq, now));
  }

  lemma GoneIsAsleep(s: Sched, now: int)
    requires SleepOk(s)
    ensures forall t :: t in Items(Expired(s.sleepq, now)) ==> Th(s, t).onSleepQ
  {
    ExpiredAfter(s.sleepq, now);
    forall t | t in Items(Expired(s.sleepq, now))
      ensures Th(s, t).onSleepQ
    {
      var i :| 0 <= i < |Expired(s.sleepq, now)| && Items(Expired(s.sleepq, now))[i] == t;
      assert Expired(s.sleepq, now)[i] in s.sleepq;
    }
  }

  /** The threads that are due, but for those in `off`: each of them once, the latest due first. */
  ghost predicate DueInOrder(s: Sched, off: seq<Tid>, now: int, gone: seq<Tid>) {
    && Distinct(gone)
    && (forall t :: t in gone <==> t in s.threads && t !in off && Th(s, t).onSleepQ && Th(s, t).due <= now)
    && (forall i, j :: 0 <= i < j < |gone| ==> Th(s, gone[i]).due >= Th(s, gone[j]).due)
  }

  lemma GoneAreThreads(s: Sched, now: int)
    requires SleepOk(s)
    ensures forall t :: t in Items(Expired(s.sleepq, now)) ==> t in s.threads
    ensures forall i :: 0 <= i < |Expired(s.sleepq, now)| ==>
              Th(s, Items(Expired(s.sleepq, now))[i]).due == Expired(s.sleepq, now)[i].due
  {
    ExpiredAfter(s.sleepq, now);
    forall i | 0 <= i < |Expired(s.sleepq, now)|
      ensures var t := Items(Expired(s.sleepq, now))[i]; t in s.threads && Th(s, t).due == Expired(s.sleepq, now)[i].due
    {
      assert Expired(s.sleepq, now)[i] in s.sleepq;
    }
  }

  /** The clock check puts the threads that are due before the run queue. */
  lemma ClockFindsDue(s: Sched, now: int)
    requires Quiet(s) && OneRuns(s)
    ensures var s' := CheckClock(s, now); var gone := Items(Expired(s.sleepq, now));
            && DueInOrder(s, [], now, gone)
            && s'.runq == gone + s.runq
            && (gone == [] ==> s' == s.(lastClock := now))
  {
    CheckClockExact(s, now);
    CheckClockKeeps(s, now);
    GoneAreThreads(s, now);
    FrontIsDistinct(Items(Expired(s.sleepq, now)), s.runq, CheckClock(s, now).runq);
    assert Items(Expired(s.sleepq, now)) == [] ==> Expired(s.sleepq, now) == [];
  }

  lemma FrontIsDistinct(front: seq<Tid>, back: seq<Tid>, all: seq<Tid>)
    requires all == front + back && Distinct(all)
    ensures Distinct(front)
  {
    assert forall i :: 0 <= i < |front| ==> front[i] == all[i];
  }
}
