/**
  Which threads a dispatch of epoll events wakes.
 */
module SchedDispatch {
  import opened Wrappers
  import opened TimeoutHeapSpec
  import opened Epoll
  import opened Sched
  import opened SchedInv

  /** Descriptor f fired with an event that pd asks for; errors and hangups concern everybody. */
  predicate Concerns(f: Fired, pd: Pollfd) {
    f.fd == pd.fd
    && (f.events.err || f.events.hup
        || (f.events.rd && pd.events.rd) || (f.events.wr && pd.events.wr) || (f.events.pri && pd.events.pri))
  }

  lemma {:induction false} ReadyCountPositive(pds: seq<Pollfd>)
    ensures ReadyCount(pds) > 0 <==> exists i :: 0 <= i < |pds| && pds[i].revents != NO_EVENTS
  {
    if pds != [] {
      var n := |pds| - 1;
      ReadyCountPositive(pds[..n]);
      if exists i :: 0 <= i < |pds| && pds[i].revents != NO_EVENTS {
        var i :| 0 <= i < |pds| && pds[i].revents != NO_EVENTS;
        assert i < n ==> pds[..n][i].revents != NO_EVENTS;
      }
      if ReadyCount(pds[..n]) > 0 {
        var i :| 0 <= i < n && pds[..n][i].revents != NO_EVENTS;
        assert pds[i].revents != NO_EVENTS;
      }
    }
  }

  lemma RevOfFired(e: EpollData, fired: seq<Fired>, pd: Pollfd)
    requires Consistent(e) && MayFire(e, fired)
    ensures RevOf(Mark(e, fired), pd) != NO_EVENTS <==> exists j :: 0 <= j < |fired| && Concerns(fired[j], pd)
  {
    MarkEffect(e, fired);
    var e1 := Mark(e, fired);
    if pd.fd in FdsOf(fired) {
      var j :| 0 <= j < |fired| && fired[j].fd == pd.fd;
      assert Data(e1, fired[j].fd).revents == Reported(Data(e, fired[j].fd), fired[j].events);
      assert forall k :: 0 <= k < |fired| && Concerns(fired[k], pd) ==> k == j;
      assert RevOf(e1, pd) != NO_EVENTS <==> Concerns(fired[j], pd);
    } else {
      assert Data(e1, pd.fd) == Data(e, pd.fd);
      assert forall k :: 0 <= k < |fired| ==> fired[k].fd in FdsOf(fired);
    }
  }

  // ---------------------------------------------------------------- what is asked for and what is reported

  /** An entry of a waiting poll asks for events of kind k on the descriptor. */
  ghost predicate Asked(s: Sched, fd: int, k: Kind) {
    exists t, i :: t in s.ioq && 0 <= i < |PdsOf(s, t)| && PdsOf(s, t)[i].fd == fd && Wants(PdsOf(s, t)[i].events, k)
  }

  lemma {:induction false} RefsAsk(pds: seq<Pollfd>, fd: int, k: Kind)
    ensures Refs(pds, fd, k) > 0 <==> exists i :: 0 <= i < |pds| && pds[i].fd == fd && Wants(pds[i].events, k)
  {
    if pds != [] {
      var n := |pds| - 1;
      RefsAsk(pds[..n], fd, k);
      if i :| 0 <= i < |pds| && pds[i].fd == fd && Wants(pds[i].events, k) {
        assert i < n ==> pds[..n][i] == pds[i];
      }
      if i :| 0 <= i < n && pds[..n][i].fd == fd && Wants(pds[..n][i].events, k) {
        assert pds[i] == pds[..n][i];
      }
    }
  }

  lemma {:induction false} TotalRefsOfOne(s: Sched, q: seq<Tid>, fd: int, k: Kind, t: Tid)
    requires t in q && Refs(PdsOf(s, t), fd, k) > 0
    ensures TotalRefs(s, q, fd, k) > 0
  {
    var n := |q| - 1;
    if t != q[n] {
      assert t in q[..n];
      TotalRefsOfOne(s, q[..n], fd, k, t);
    }
  }

  lemma {:induction false} OneOfTotalRefs(s: Sched, q: seq<Tid>, fd: int, k: Kind) returns (t: Tid)
    requires TotalRefs(s, q, fd, k) > 0
    ensures t in q && Refs(PdsOf(s, t), fd, k) > 0
  {
    var n := |q| - 1;
    t := q[n];
    if Refs(PdsOf(s, t), fd, k) == 0 {
      t := OneOfTotalRefs(s, q[..n], fd, k);
    }
  }

  lemma CountsAsk(s: Sched, fd: int, k: Kind)
    requires Counted(s)
    ensures Count(Data(s.ep, fd), k) != 0 <==> Asked(s, fd, k)
  {
    assert Count(Data(s.ep, fd), k) == TotalRefs(s, s.ioq, fd, k);
    if t, i :| t in s.ioq && 0 <= i < |PdsOf(s, t)| && PdsOf(s, t)[i].fd == fd && Wants(PdsOf(s, t)[i].events, k) {
      RefsAsk(PdsOf(s, t), fd, k);
      TotalRefsOfOne(s, s.ioq, fd, k, t);
    }
    if TotalRefs(s, s.ioq, fd, k) > 0 {
      var t := OneOfTotalRefs(s, s.ioq, fd, k);
      RefsAsk(PdsOf(s, t), fd, k);
    }
  }

  /** The kernel is asked about exactly the descriptors, and on each of them about the events, that waiting polls ask for. */
  lemma InterestIsAsked(s: Sched, fd: int)
    requires Inv(s)
    ensures fd in s.ep.interest <==> exists k :: Asked(s, fd, k)
    ensures fd in s.ep.interest ==>
              && (s.ep.interest[fd].rd <==> Asked(s, fd, Read))
              && (s.ep.interest[fd].wr <==> Asked(s, fd, Write))
              && (s.ep.interest[fd].pri <==> Asked(s, fd, Urgent))
  {
    CountsAsk(s, fd, Read);
    CountsAsk(s, fd, Write);
    CountsAsk(s, fd, Urgent);
    assert Registered(s.ep, fd);
    if k :| Asked(s, fd, k) {
      match k
      case Read =>
      case Write =>
      case Urgent =>
    }
  }

  /**
    What a poll entry is told of the fired events: an event it asks for if its descriptor fired
    with it or with an error or hangup, and errors and hangups themselves as they fired.
   */
  ghost predicate Answers(fired: seq<Fired>, pd: Pollfd, got: Events) {
    && (got.rd <==> pd.events.rd && exists j :: 0 <= j < |fired| && fired[j].fd == pd.fd
                                               && (fired[j].events.rd || fired[j].events.err || fired[j].events.hup))
    && (got.wr <==> pd.events.wr && exists j :: 0 <= j < |fired| && fired[j].fd == pd.fd
                                               && (fired[j].events.wr || fired[j].events.err || fired[j].events.hup))
    && (got.pri <==> pd.events.pri && exists j :: 0 <= j < |fired| && fired[j].fd == pd.fd
                                                 && (fired[j].events.pri || fired[j].events.err || fired[j].events.hup))
    && (got.err <==> exists j :: 0 <= j < |fired| && fired[j].fd == pd.fd && fired[j].events.err)
    && (got.hup <==> exists j :: 0 <= j < |fired| && fired[j].fd == pd.fd && fired[j].events.hup)
  }

  /** The entries of a poll with what they are told; nothing else in them changes. */
  ghost predicate AllAnswered(fired: seq<Fired>, pds: seq<Pollfd>, pds': seq<Pollfd>) {
    && SameEntries(pds, pds')
    && forall i :: 0 <= i < |pds| ==> Answers(fired, pds[i], pds'[i].revents)
  }

  /** The counts include the events that the entry asks for. */
  predicate CountedEntry(d: FdData, pd: Pollfd) {
    && (pd.events.rd ==> d.rdCnt != 0) && (pd.events.wr ==> d.wrCnt != 0) && (pd.events.pri ==> d.exCnt != 0)
  }

  lemma FiredAnswers(e: EpollData, fired: seq<Fired>, pd: Pollfd)
    requires Consistent(e) && MayFire(e, fired) && CountedEntry(Data(e, pd.fd), pd)
    ensures Answers(fired, pd, RevOf(Mark(e, fired), pd))
  {
    MarkEffect(e, fired);
    var e1 := Mark(e, fired);
    if pd.fd in FdsOf(fired) {
      var j :| 0 <= j < |fired| && fired[j].fd == pd.fd;
      assert Data(e1, fired[j].fd).revents == Reported(Data(e, fired[j].fd), fired[j].events);
      assert forall k :: 0 <= k < |fired| && fired[k].fd == pd.fd ==> k == j;
    } else {
      assert Data(e1, pd.fd) == Data(e, pd.fd);
      assert forall k :: 0 <= k < |fired| ==> fired[k].fd in FdsOf(fired);
    }
  }

  lemma EntryIsCounted(s: Sched, t: Tid, i: nat)
    requires Counted(s) && t in s.ioq && i < |PdsOf(s, t)|
    ensures CountedEntry(Data(s.ep, PdsOf(s, t)[i].fd), PdsOf(s, t)[i])
  {
    var pd := PdsOf(s, t)[i];
    CountsAsk(s, pd.fd, Read);
    CountsAsk(s, pd.fd, Write);
    CountsAsk(s, pd.fd, Urgent);
    assert Wants(pd.events, Read) ==> Asked(s, pd.fd, Read);
    assert Wants(pd.events, Write) ==> Asked(s, pd.fd, Write);
    assert Wants(pd.events, Urgent) ==> Asked(s, pd.fd, Urgent);
  }

  lemma PollAnswered(s: Sched, fired: seq<Fired>, t: Tid)
    requires EpollOk(s) && MayFire(s.ep, fired) && t in s.ioq
    ensures AllAnswered(fired, PdsOf(s, t), WithRevents(Mark(s.ep, fired), PdsOf(s, t)))
  {
    forall i | 0 <= i < |PdsOf(s, t)|
      ensures Answers(fired, PdsOf(s, t)[i], RevOf(Mark(s.ep, fired), PdsOf(s, t)[i]))
    {
      EntryIsCounted(s, t, i);
      FiredAnswers(s.ep, fired, PdsOf(s, t)[i]);
    }
  }

  /** The entries that a fired event concerns. */
  ghost function ConcernedEntries(fired: seq<Fired>, pds: seq<Pollfd>): set<nat> {
    set i: nat | i < |pds| && exists j :: 0 <= j < |fired| && Concerns(fired[j], pds[i])
  }

  lemma AnsweredIff(fired: seq<Fired>, pd: Pollfd, got: Events)
    requires Answers(fired, pd, got)
    ensures got != NO_EVENTS <==> exists j :: 0 <= j < |fired| && Concerns(fired[j], pd)
  {
    if j :| 0 <= j < |fired| && Concerns(fired[j], pd) {
      assert fired[j].fd == pd.fd;
    }
    if got != NO_EVENTS {
      var j :| 0 <= j < |fired| && fired[j].fd == pd.fd && (got.rd || got.wr || got.pri || got.err || got.hup)
               && Concerns(fired[j], pd);
    }
  }

  /** A poll counts exactly the entries that a fired event concerns. */
  lemma {:induction false} ReadyCountIsConcerned(fired: seq<Fired>, pds: seq<Pollfd>, pds': seq<Pollfd>)
    requires AllAnswered(fired, pds, pds')
    ensures ReadyCount(pds') == |ConcernedEntries(fired, pds)|
  {
    if pds == [] {
      assert ConcernedEntries(fired, pds) == {};
    } else {
      var n := |pds| - 1;
      ReadyCountIsConcerned(fired, pds[..n], pds'[..n]);
      AnsweredIff(fired, pds[n], pds'[n].revents);
      ConcernedMore(fired, pds);
    }
  }

  lemma ConcernedMore(fired: seq<Fired>, pds: seq<Pollfd>)
    requires pds != []
    ensures var n := |pds| - 1; var front := ConcernedEntries(fired, pds[..n]);
            && n !in front
            && ConcernedEntries(fired, pds) ==
               if exists j :: 0 <= j < |fired| && Concerns(fired[j], pds[n]) then front + {n} else front
  {
    var n := |pds| - 1;
    assert forall i :: 0 <= i < n ==> pds[..n][i] == pds[i];
  }

  /** A fired event concerns an entry of the poll of thread t. */
  ghost predicate ConcernsThread(s: Sched, fired: seq<Fired>, t: Tid) {
    exists i, j :: 0 <= i < |PdsOf(s, t)| && 0 <= j < |fired| && Concerns(fired[j], PdsOf(s, t)[i])
  }

  /** The threads of q that fired events concern, in order. */
  ghost function ConcernedOf(s: Sched, fired: seq<Fired>, q: seq<Tid>): seq<Tid> {
    if q == [] then []
    else ConcernedOf(s, fired, q[..|q| - 1]) + if ConcernsThread(s, fired, q[|q| - 1]) then [q[|q| - 1]] else []
  }

  /** A pollq is notified iff a fired event concerns one of its descriptors. */
  lemma NotifiedIff(s: Sched, fired: seq<Fired>, t: Tid)
    requires Consistent(s.ep) && MayFire(s.ep, fired)
    ensures ToNotify(s.(ep := Mark(s.ep, fired)), t) <==>
            exists i, j :: 0 <= i < |PdsOf(s, t)| && 0 <= j < |fired| && Concerns(fired[j], PdsOf(s, t)[i])
  {
    var s1 := s.(ep := Mark(s.ep, fired));
    var pds := PdsOf(s, t);
    assert PdsOf(s1, t) == pds;
    ReadyCountPositive(WithRevents(s1.ep, pds));
    forall i | 0 <= i < |pds|
      ensures WithRevents(s1.ep, pds)[i].revents != NO_EVENTS <==> exists j :: 0 <= j < |fired| && Concerns(fired[j], pds[i])
    {
      RevOfFired(s.ep, fired, pds[i]);
    }
  }

  /** The first of two dispatches over one io queue: the visited state, as seen from before the events were stored. */
  lemma DispatchVisits(s: Sched, fired: seq<Fired>)
    requires Inv(s) && s.current == s.idle && MayFire(s.ep, fired) && fired != []
    ensures var s1 := s.(ep := Mark(s.ep, fired));
            && Visited(s1, DispatchAll(s1, s.ioq), s.ioq, [])
            && Dispatch(s, fired) == DispatchAll(s1, s.ioq).(ep := Finish(DispatchAll(s1, s.ioq).ep, fired))
  {
    IoqWaitsWhenIdle(s);
    MarkEffect(s.ep, fired);
    var s1 := s.(ep := Mark(s.ep, fired));
    MarkSettled(s, s1.ep);
    CountedByEp(s, s1.ep);
    FiredRegistered(s.ep, fired);
    assert s1.ioq == s1.ioq + [];
    DispatchAllKeeps(s1, s1.ioq, [], FdsOf(fired));
  }

  /** The record of a thread on the io queue behind the dispatch. */
  function DispatchedThread(s: Sched, t: Tid): Thread {
    var pds := WithRevents(s.ep, PdsOf(s, t));
    if ToNotify(s, t) then Th(s, t).(at := InPoll(pds, false), state := Runnable, onSleepQ := false)
    else Th(s, t).(at := InPoll(pds, true))
  }

  lemma DispatchedOne(s: Sched, s1: Sched, t: Tid)
    requires SleepOk(s1) && t in s1.threads && SameFired(s.ep, s1.ep) && Th(s1, t) == Th(s, t)
    ensures Th(DispatchOne(s1, t), t) == DispatchedThread(s, t)
    ensures forall x :: x != t ==> Th(DispatchOne(s1, t), x) == Th(s1, x)
  {
    SameRevents(s.ep, s1.ep, PdsOf(s, t));
    if ToNotify(s1, t) {
      NotifiedEffect(s1, t);
      UpdatedAlone(s1, DispatchOne(s1, t), t, DispatchedThread(s, t));
    } else {
      UpdatedAlone(s1, DispatchOne(s1, t), t, DispatchedThread(s, t));
    }
  }

  lemma UpdatedAlone(s: Sched, s': Sched, t: Tid, th: Thread)
    requires s'.threads == s.threads[t := th]
    ensures Th(s', t) == th && forall x :: x != t ==> Th(s', x) == Th(s, x)
  {
  }

  /** The records behind the visits to the threads of q. */
  ghost predicate VisitedThreads(s: Sched, s': Sched, q: seq<Tid>) {
    && (forall t :: t in q ==> Th(s', t) == DispatchedThread(s, t))
    && (forall t :: t !in q ==> Th(s', t) == Th(s, t))
  }

  lemma OneMoreVisited(s: Sched, s1: Sched, s': Sched, q: seq<Tid>, t: Tid)
    requires VisitedThreads(s, s1, q) && t !in q
    requires Th(s', t) == DispatchedThread(s, t) && forall x :: x != t ==> Th(s', x) == Th(s1, x)
    ensures VisitedThreads(s, s', q + [t])
  {
  }

  lemma {:induction false} DispatchRecords(s: Sched, q: seq<Tid>, rest: seq<Tid>, off: set<int>)
    requires Settled(s) && DispatchEpoll(s, off)
    requires s.ioq == q + rest && forall t :: t in s.ioq ==> Th(s, t).state == IoWait
    ensures VisitedThreads(s, DispatchAll(s, q), q)
  {
    if q != [] {
      SplitLast(s.ioq, q, rest);
      var t := q[|q| - 1];
      var front := q[..|q| - 1];
      DispatchAllKeeps(s, front, [t] + rest, off);
      DispatchRecords(s, front, [t] + rest, off);
      DispatchedOne(s, DispatchAll(s, front), t);
      OneMoreVisited(s, DispatchAll(s, front), DispatchAll(s, q), front, t);
    }
  }

  /**
    What dispatch tells the thread of a pollq: each of its entries has the answer to the fired
    events, as many of them are ready as fired events concern, and the thread is runnable, out of
    the heap and off the io queue iff that is any.
   */
  lemma DispatchAnswers(s: Sched, fired: seq<Fired>, t: Tid)
    requires Inv(s) && s.current == s.idle && MayFire(s.ep, fired) && fired != [] && t in s.ioq
    ensures var th := Th(Dispatch(s, fired), t); var n := |ConcernedEntries(fired, PdsOf(s, t))|;
            && th.at.InPoll? && AllAnswered(fired, PdsOf(s, t), th.at.pds) && ReadyCount(th.at.pds) == n
            && (n > 0 <==> ConcernsThread(s, fired, t))
            && th == if n > 0 then Th(s, t).(at := InPoll(th.at.pds, false), state := Runnable, onSleepQ := false)
                     else Th(s, t).(at := InPoll(th.at.pds, true))
  {
    IoqWaitsWhenIdle(s);
    MarkEffect(s.ep, fired);
    var s1 := s.(ep := Mark(s.ep, fired));
    MarkSettled(s, s1.ep);
    CountedByEp(s, s1.ep);
    FiredRegistered(s.ep, fired);
    assert s1.ioq == s1.ioq + [];
    DispatchRecords(s1, s1.ioq, [], FdsOf(fired));
    PollAnswered(s, fired, t);
    ReadyCountIsConcerned(fired, PdsOf(s, t), WithRevents(s1.ep, PdsOf(s, t)));
    NotifiedIff(s, fired, t);
    assert PdsOf(s1, t) == PdsOf(s, t) && Th(s1, t) == Th(s, t);
    assert Th(Dispatch(s, fired), t) == DispatchedThread(s1, t);
  }

  /** The queues after a dispatch, by the notified threads. */
  lemma DispatchSelects(s: Sched, fired: seq<Fired>, t: Tid)
    requires Inv(s) && s.current == s.idle && MayFire(s.ep, fired) && fired != []
    ensures var s1 := s.(ep := Mark(s.ep, fired)); var s' := Dispatch(s, fired);
            && s'.runq == Selected(s1, s.ioq)
            && (t in s'.runq <==> t in s.ioq && ToNotify(s1, t))
            && (t in s'.ioq <==> t in s.ioq && !ToNotify(s1, t))
            && (t !in s.ioq ==> Th(s', t) == Th(s, t))
  {
    DispatchVisits(s, fired);
    var s1 := s.(ep := Mark(s.ep, fired));
    assert s1.runq == [] && [] + Selected(s1, s.ioq) == Selected(s1, s.ioq);
    SelectedIn(s1, s.ioq);
  }

  /**
    Dispatch makes runnable exactly the threads on the io queue that a fired event concerns, in the
    order of the io queue and each of them once; these leave the io queue and nobody else does.
   */
  lemma DispatchWakes(s: Sched, fired: seq<Fired>, t: Tid)
    requires Inv(s) && s.current == s.idle && MayFire(s.ep, fired) && fired != []
    ensures var s' := Dispatch(s, fired);
            var concerned := exists i, j :: 0 <= i < |PdsOf(s, t)| && 0 <= j < |fired| && Concerns(fired[j], PdsOf(s, t)[i]);
            && (t in s'.runq <==> t in s.ioq && concerned)
            && (t in s'.ioq <==> t in s.ioq && !concerned)
            && (t !in s.ioq ==> Th(s', t) == Th(s, t))
            && Distinct(s'.runq)
            && s'.runq == ConcernedOf(s, fired, s.ioq)
  {
    DispatchSelects(s, fired, t);
    DispatchKeeps(s, fired);
    NotifiedIff(s, fired, t);
    SelectedAreConcerned(s, fired, s.ioq);
  }

  lemma {:induction false} SelectedAreConcerned(s: Sched, fired: seq<Fired>, q: seq<Tid>)
    requires Consistent(s.ep) && MayFire(s.ep, fired)
    ensures Selected(s.(ep := Mark(s.ep, fired)), q) == ConcernedOf(s, fired, q)
  {
    if q != [] {
      SelectedAreConcerned(s, fired, q[..|q| - 1]);
      NotifiedIff(s, fired, q[|q| - 1]);
    }
  }

  lemma {:induction false} SelectedIn(s: Sched, q: seq<Tid>)
    ensures forall t :: t in Selected(s, q) <==> t in q && ToNotify(s, t)
  {
    if q != [] {
      SelectedIn(s, q[..|q| - 1]);
      assert q == q[..|q| - 1] + [q[|q| - 1]];
    }
  }
}
