/**
  What `st_poll` hands back to a thread that was woken by the events of its descriptors.
 */
module SchedPoll {
  import opened Wrappers
  import opened TimeoutHeapSpec
  import opened Epoll
  import opened Sched
  import opened SchedInv
  import opened SchedRuns
  import opened SchedDispatch
  import opened SchedTimeout
  import opened SchedCalls

  /** The thread has been told of the fired events, and `st_poll` has yet to return. */
  ghost predicate Told(th: Thread, fired: seq<Fired>, pds: seq<Pollfd>) {
    && th.at.InPoll? && !th.at.onIoq && AllAnswered(fired, pds, th.at.pds)
    && ReadyCount(th.at.pds) == |ConcernedEntries(fired, pds)| > 0
  }

  /** The round of the idle thread in which a fired event concerns a thread. */
  lemma RoundTells(s: Sched, now: int, fired: seq<Fired>, t: Tid)
    requires Inv(s) && !s.exited && s.current == s.idle && MayFire(s.ep, fired) && s.activeCount > 0 && WokenByEvent(s, fired, t)
    ensures var s' := IdleRound(s, now, fired);
            Told(Th(s', t), fired, PdsOf(s, t)) && IsReady(Th(s', t).state) && InCall(s', t)
  {
    IdleCall(s, now, fired);
    var s' := IdleRound(s, now, fired);
    assert Th(s, t).at.InPoll? && t != s.idle;
    assert RoundEffect(s, s', fired, now, t);
    SomeEntry(s, fired, t);
  }

  lemma SomeEntry(s: Sched, fired: seq<Fired>, t: Tid)
    requires ConcernsThread(s, fired, t)
    ensures fired != [] && |ConcernedEntries(fired, PdsOf(s, t))| > 0
  {
    var i: nat, j :| i < |PdsOf(s, t)| && 0 <= j < |fired| && Concerns(fired[j], PdsOf(s, t)[i]);
    assert i in ConcernedEntries(fired, PdsOf(s, t));
  }

  /** The program goes on behind a round of the idle thread if another thread runs later. */
  lemma RunningOn(states: seq<Sched>, steps: seq<Step>, t: Tid, m: nat, n: nat)
    requires IsRun(states, steps) && m < n < |states| && Inv(states[m]) && steps[m].DoIdle? && t in states[m].ioq
    requires states[n].current == t
    ensures states[m].activeCount > 0
  {
    assert Enabled(states[m], steps[m]) && states[m + 1] == Apply(states[m], steps[m]).0;
    assert n > m + 1 ==> Enabled(states[m + 1], steps[m + 1]);
    assert Th(states[m], t).at.InPoll?;
  }

  lemma StepTells(states: seq<Sched>, steps: seq<Step>, t: Tid, m: nat, n: nat)
    requires IsRun(states, steps) && Inv(states[0]) && m < n < |states| && states[n].current == t
    requires steps[m].DoIdle? && WokenByEvent(states[m], steps[m].fired, t)
    ensures var s' := states[m + 1];
            Told(Th(s', t), steps[m].fired, PdsOf(states[m], t)) && IsReady(Th(s', t).state) && InCall(s', t)
  {
    RunKeeps(states, steps, m);
    RunningOn(states, steps, t, m, n);
    assert Enabled(states[m], steps[m]);
    RoundTells(states[m], steps[m].now, steps[m].fired, t);
  }

  /**
    A poll that a fired event has ended: when the thread runs again, whatever has happened in
    between, each entry has its answer to the events of that dispatch, and the result is the
    number of entries that these events concern, unless the thread was interrupted.
   */
  lemma PollReportsFired(states: seq<Sched>, steps: seq<Step>, t: Tid, m: nat, n: nat)
    requires IsRun(states, steps) && Inv(states[0]) && m < n < |states|
    requires steps[m].DoIdle? && WokenByEvent(states[m], steps[m].fired, t)
    requires forall i :: m + 1 <= i < n ==> !(steps[i] == DoResume && states[i].current == t)
    requires states[n].current == t
    ensures var fired, pds := steps[m].fired, PdsOf(states[m], t); var th := Th(states[n], t);
            && Told(th, fired, pds)
            && Resumed(states[n]).1 ==
               if th.interrupt then Done(-1, EINTR) else Done(|ConcernedEntries(fired, pds)|, NoError)
  {
    StepTells(states, steps, t, m, n);
    MarkIsFinal(states, steps, t, m + 1, n);
  }
}
