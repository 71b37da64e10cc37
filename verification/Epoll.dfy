/**
  The epoll back end of `event.c`: per descriptor reference counts, the interest set that the
  kernel holds, and the count of registered descriptors. The kernel refuses to register the
  descriptors in a set `refused` chosen anew for every call; changing and removing the
  registration of a registered descriptor succeeds.
 */
module Epoll {

  datatype Kind = Read | Write | Urgent

  /** The `events` of a pollfd; `other` stands for any bit outside POLLIN, POLLOUT and POLLPRI. */
  datatype Request = Request(rd: bool, wr: bool, pri: bool, other: bool)

  datatype Events = Events(rd: bool, wr: bool, pri: bool, err: bool, hup: bool)

  const NO_EVENTS := Events(false, false, false, false, false)

  datatype Pollfd = Pollfd(fd: int, events: Request, revents: Events)

  datatype Mask = Mask(rd: bool, wr: bool, pri: bool)

  const NO_MASK := Mask(false, false, false)

  datatype FdData = FdData(rdCnt: int, wrCnt: int, exCnt: int, revents: Events)

  const ZERO_DATA := FdData(0, 0, 0, NO_EVENTS)

  datatype EpollData = EpollData(fds: map<int, FdData>, interest: map<int, Mask>, evtlistCnt: int)

  /** The entry of a descriptor in the table, which the source keeps zeroed where nothing was written. */
  function Data(e: EpollData, fd: int): FdData {
    if fd in e.fds then e.fds[fd] else ZERO_DATA
  }

  function SetData(e: EpollData, fd: int, d: FdData): EpollData {
    e.(fds := e.fds[fd := d])
  }

  function Count(d: FdData, k: Kind): int {
    match k
    case Read => d.rdCnt
    case Write => d.wrCnt
    case Urgent => d.exCnt
  }

  predicate Wants(r: Request, k: Kind) {
    match k
    case Read => r.rd
    case Write => r.wr
    case Urgent => r.pri
  }

  /** The events mask derived from the counts. */
  function MaskOf(d: FdData): Mask {
    Mask(d.rdCnt != 0, d.wrCnt != 0, d.exCnt != 0)
  }

  function Bump(d: FdData, r: Request, delta: int): FdData {
    FdData(d.rdCnt + (if r.rd then delta else 0),
           d.wrCnt + (if r.wr then delta else 0),
           d.exCnt + (if r.pri then delta else 0),
           d.revents)
  }

  /** The check made on every entry before anything is changed. */
  predicate Acceptable(pd: Pollfd) {
    pd.fd >= 0 && (pd.events.rd || pd.events.wr || pd.events.pri) && !pd.events.other
  }

  predicate AllAcceptable(pds: seq<Pollfd>) {
    forall i :: 0 <= i < |pds| ==> Acceptable(pds[i])
  }

  /** One round of the second loop of `_st_epoll_pollset_add`; false when epoll_ctl failed. */
  function AddOne(e: EpollData, pd: Pollfd, refused: set<int>): (EpollData, bool) {
    var was := MaskOf(Data(e, pd.fd));
    var e1 := SetData(e, pd.fd, Bump(Data(e, pd.fd), pd.events, 1));
    var mask := MaskOf(Data(e1, pd.fd));
    if mask == was then (e1, true)
    else if was != NO_MASK then
      if pd.fd in e.interest then (e1.(interest := e.interest[pd.fd := mask]), true) else (e1, false)
    else
      if pd.fd in e.interest then (e1.(evtlistCnt := e.evtlistCnt + 1), true)  // EEXIST is accepted
      else if pd.fd in refused then (e1, false)
      else (e1.(interest := e.interest[pd.fd := mask], evtlistCnt := e.evtlistCnt + 1), true)
  }

  /** One round of `_st_epoll_pollset_del`. */
  function DelOne(e: EpollData, pd: Pollfd): EpollData {
    var was := MaskOf(Data(e, pd.fd));
    var e1 := SetData(e, pd.fd, Bump(Data(e, pd.fd), pd.events, -1));
    var mask := MaskOf(Data(e1, pd.fd));
    if mask == was || Data(e, pd.fd).revents != NO_EVENTS || pd.fd !in e.interest then e1
    else if mask != NO_MASK then e1.(interest := e.interest[pd.fd := mask])
    else e1.(interest := e.interest - {pd.fd}, evtlistCnt := e.evtlistCnt - 1)
  }

  function DelAll(e: EpollData, pds: seq<Pollfd>): EpollData {
    if pds == [] then e
    else DelOne(DelAll(e, pds[..|pds| - 1]), pds[|pds| - 1])
  }

  /** The number of entries added before the first failure, and the state at that point. */
  function AddUntilFailure(e: EpollData, pds: seq<Pollfd>, refused: set<int>): (r: (EpollData, nat))
    ensures r.1 <= |pds|
  {
    if pds == [] then (e, 0)
    else
      var n := |pds| - 1;
      var (e1, k) := AddUntilFailure(e, pds[..n], refused);
      if k < n then (e1, k)
      else
        var (e2, ok) := AddOne(e1, pds[n], refused);
        (e2, if ok then n + 1 else n)
  }

  datatype AddResult = Added | Invalid | Refused

  function AddPollset(e: EpollData, pds: seq<Pollfd>, refused: set<int>): (EpollData, AddResult) {
    if !AllAcceptable(pds) then (e, Invalid)
    else
      var (e1, k) := AddUntilFailure(e, pds, refused);
      if k < |pds| then (DelAll(e1, pds[..k + 1]), Refused) else (e1, Added)
  }

  // ---------------------------------------------------------------- counting

  function Ref(pd: Pollfd, fd: int, k: Kind): nat {
    if pd.fd == fd && Wants(pd.events, k) then 1 else 0
  }

  /** How many entries ask for events of kind k on a descriptor. */
  function Refs(pds: seq<Pollfd>, fd: int, k: Kind): nat {
    if pds == [] then 0
    else Refs(pds[..|pds| - 1], fd, k) + Ref(pds[|pds| - 1], fd, k)
  }

  lemma DelOneCounts(e: EpollData, pd: Pollfd)
    ensures forall fd, k :: Count(Data(DelOne(e, pd), fd), k) == Count(Data(e, fd), k) - Ref(pd, fd, k)
    ensures forall fd :: Data(DelOne(e, pd), fd).revents == Data(e, fd).revents
  {
  }

  /** Removing a poll set takes its entries off the counts, whatever the kernel did. */
  lemma {:induction false} DelAllCounts(e: EpollData, pds: seq<Pollfd>)
    ensures forall fd, k :: Count(Data(DelAll(e, pds), fd), k) == Count(Data(e, fd), k) - Refs(pds, fd, k)
    ensures forall fd :: Data(DelAll(e, pds), fd).revents == Data(e, fd).revents
  {
    if pds != [] {
      var n := |pds| - 1;
      DelAllCounts(e, pds[..n]);
      DelOneCounts(DelAll(e, pds[..n]), pds[n]);
    }
  }

  lemma AddOneCounts(e: EpollData, pd: Pollfd, refused: set<int>)
    ensures forall fd, k :: Count(Data(AddOne(e, pd, refused).0, fd), k) == Count(Data(e, fd), k) + Ref(pd, fd, k)
    ensures forall fd :: Data(AddOne(e, pd, refused).0, fd).revents == Data(e, fd).revents
  {
  }

  /** When entry number `done` failed its counts are already taken. */
  lemma {:induction false} AddUntilFailureCounts(e: EpollData, pds: seq<Pollfd>, refused: set<int>)
    ensures var (e1, done) := AddUntilFailure(e, pds, refused);
            var touched := if done < |pds| then done + 1 else done;
            && (forall fd, k :: Count(Data(e1, fd), k) == Count(Data(e, fd), k) + Refs(pds[..touched], fd, k))
            && (forall fd :: Data(e1, fd).revents == Data(e, fd).revents)
  {
    if pds == [] {
      assert pds[..0] == pds;
    } else {
      AddUntilFailureCounts(e, pds[..|pds| - 1], refused);
      AddLastCounts(e, pds, refused);
    }
  }

  lemma {:induction false} AddLastCounts(e: EpollData, pds: seq<Pollfd>, refused: set<int>)
    requires pds != []
    requires var n := |pds| - 1; var (e1, done) := AddUntilFailure(e, pds[..n], refused);
             var touched := if done < n then done + 1 else done;
             && (forall fd, k :: Count(Data(e1, fd), k) == Count(Data(e, fd), k) + Refs(pds[..n][..touched], fd, k))
             && (forall fd :: Data(e1, fd).revents == Data(e, fd).revents)
    ensures var (e1, done) := AddUntilFailure(e, pds, refused);
            var touched := if done < |pds| then done + 1 else done;
            && (forall fd, k :: Count(Data(e1, fd), k) == Count(Data(e, fd), k) + Refs(pds[..touched], fd, k))
            && (forall fd :: Data(e1, fd).revents == Data(e, fd).revents)
  {
    var n := |pds| - 1;
    var (e1, done) := AddUntilFailure(e, pds[..n], refused);
    if done < n {
      assert pds[..n][..done + 1] == pds[..done + 1];
    } else {
      assert pds[..n][..n] == pds[..n] && pds[..n + 1] == pds;
      AddedCounts(e, e1, pds, refused);
    }
  }

  lemma AddedCounts(e: EpollData, e1: EpollData, pds: seq<Pollfd>, refused: set<int>)
    requires pds != []
    requires forall fd, k :: Count(Data(e1, fd), k) == Count(Data(e, fd), k) + Refs(pds[..|pds| - 1], fd, k)
    requires forall fd :: Data(e1, fd).revents == Data(e, fd).revents
    ensures var e2 := AddOne(e1, pds[|pds| - 1], refused).0;
            && (forall fd, k :: Count(Data(e2, fd), k) == Count(Data(e, fd), k) + Refs(pds, fd, k))
            && (forall fd :: Data(e2, fd).revents == Data(e, fd).revents)
  {
    AddOneCounts(e1, pds[|pds| - 1], refused);
  }

  ghost predicate SameCounts(e: EpollData, e': EpollData) {
    forall fd :: Data(e, fd) == Data(e', fd)
  }

  lemma SameCountsFrom(e: EpollData, e': EpollData)
    requires forall fd, k :: Count(Data(e', fd), k) == Count(Data(e, fd), k)
    requires forall fd :: Data(e', fd).revents == Data(e, fd).revents
    ensures SameCounts(e, e')
  {
    forall fd
      ensures Data(e, fd) == Data(e', fd)
    {
      assert Count(Data(e', fd), Read) == Count(Data(e, fd), Read);
      assert Count(Data(e', fd), Write) == Count(Data(e, fd), Write);
      assert Count(Data(e', fd), Urgent) == Count(Data(e, fd), Urgent);
    }
  }

  /** A successful add counts every entry; a failed one leaves all counts as before. */
  lemma PollsetAddCounts(e: EpollData, pds: seq<Pollfd>, refused: set<int>)
    ensures var (e', r) := AddPollset(e, pds, refused);
            && (r == Added ==> forall fd, k :: Count(Data(e', fd), k) == Count(Data(e, fd), k) + Refs(pds, fd, k))
            && (r == Added ==> forall fd :: Data(e', fd).revents == Data(e, fd).revents)
            && (r != Added ==> SameCounts(e, e'))
  {
    AddUntilFailureCounts(e, pds, refused);
    assert pds[..|pds|] == pds;
    var (e1, done) := AddUntilFailure(e, pds, refused);
    if AllAcceptable(pds) && done < |pds| {
      DelAllCounts(e1, pds[..done + 1]);
      SameCountsFrom(e, DelAll(e1, pds[..done + 1]));
    }
  }

  // ---------------------------------------------------------------- the kernel's interest set

  /** A descriptor is registered, for exactly the events with a non-zero count, if there are any. */
  predicate Registered(e: EpollData, fd: int) {
    var mask := MaskOf(Data(e, fd));
    if mask == NO_MASK then fd !in e.interest else fd in e.interest && e.interest[fd] == mask
  }

  /**
    The registrations agree with the counts, but for the descriptors in `off`; those are
    either unknown to the kernel, or have fired and wait for the end of dispatch.
   */
  ghost predicate ConsistentBut(e: EpollData, off: set<int>) {
    && (forall fd :: fd !in off ==> Registered(e, fd) && Data(e, fd).revents == NO_EVENTS)
    && (forall fd :: fd in off ==> fd !in e.interest || Data(e, fd).revents != NO_EVENTS)
    && e.evtlistCnt == |e.interest|
  }

  /** What holds outside dispatch. */
  ghost predicate Consistent(e: EpollData) {
    ConsistentBut(e, {})
  }

  /** The counts include every entry of pds. */
  ghost predicate Covers(e: EpollData, pds: seq<Pollfd>) {
    forall fd, k :: Count(Data(e, fd), k) >= Refs(pds, fd, k)
  }

  lemma RemoveKey<K, V>(m: map<K, V>, k: K)
    requires k in m
    ensures |m - {k}| == |m| - 1
  {
    assert (m - {k}).Keys == m.Keys - {k};
  }

  lemma ReplaceValue<K, V>(m: map<K, V>, k: K, v: V)
    ensures |m[k := v]| == if k in m then |m| else |m| + 1
  {
    assert m[k := v].Keys == m.Keys + {k};
  }

  lemma DelOneRegistered(e: EpollData, pd: Pollfd, fd: int)
    requires Registered(e, fd) && (fd == pd.fd ==> Data(e, fd).revents == NO_EVENTS)
    requires forall k :: Count(Data(e, pd.fd), k) >= Ref(pd, pd.fd, k)
    ensures Registered(DelOne(e, pd), fd)
  {
    assert Count(Data(e, pd.fd), Read) >= Ref(pd, pd.fd, Read);
    assert Count(Data(e, pd.fd), Write) >= Ref(pd, pd.fd, Write);
    assert Count(Data(e, pd.fd), Urgent) >= Ref(pd, pd.fd, Urgent);
  }

  lemma DelOneListed(e: EpollData, pd: Pollfd)
    requires e.evtlistCnt == |e.interest|
    ensures DelOne(e, pd).evtlistCnt == |DelOne(e, pd).interest|
  {
    if pd.fd in e.interest {
      RemoveKey(e.interest, pd.fd);
      ReplaceValue(e.interest, pd.fd, MaskOf(Data(DelOne(e, pd), pd.fd)));
    }
  }

  lemma DelOneConsistent(e: EpollData, pd: Pollfd, off: set<int>)
    requires ConsistentBut(e, off)
    requires forall k :: Count(Data(e, pd.fd), k) >= Ref(pd, pd.fd, k)
    ensures ConsistentBut(DelOne(e, pd), off)
    ensures forall fd :: fd in off ==> (fd in DelOne(e, pd).interest <==> fd in e.interest)
  {
    var e' := DelOne(e, pd);
    DelOneCounts(e, pd);
    DelOneListed(e, pd);
    forall fd | fd !in off
      ensures Registered(e', fd)
    {
      DelOneRegistered(e, pd, fd);
    }
  }

  lemma CoversPrefix(e: EpollData, pds: seq<Pollfd>)
    requires Covers(e, pds) && pds != []
    ensures Covers(e, pds[..|pds| - 1])
  {
    var n := |pds| - 1;
    forall fd, k
      ensures Count(Data(e, fd), k) >= Refs(pds[..n], fd, k)
    {
      assert Count(Data(e, fd), k) >= Refs(pds, fd, k);
    }
  }

  /** Removing a poll set that is counted keeps registrations and counts in agreement. */
  lemma {:induction false} DelAllConsistent(e: EpollData, pds: seq<Pollfd>, off: set<int>)
    requires ConsistentBut(e, off) && Covers(e, pds)
    ensures ConsistentBut(DelAll(e, pds), off)
    ensures forall fd :: fd in off ==> (fd in DelAll(e, pds).interest <==> fd in e.interest)
  {
    if pds != [] {
      var n := |pds| - 1;
      CoversPrefix(e, pds);
      DelAllConsistent(e, pds[..n], off);
      DelAllCounts(e, pds[..n]);
      forall k
        ensures Count(Data(DelAll(e, pds[..n]), pds[n].fd), k) >= Ref(pds[n], pds[n].fd, k)
      {
        assert Count(Data(e, pds[n].fd), k) >= Refs(pds, pds[n].fd, k);
      }
      DelOneConsistent(DelAll(e, pds[..n]), pds[n], off);
    }
  }

  ghost predicate NonNegative(e: EpollData) {
    forall fd, k :: Count(Data(e, fd), k) >= 0
  }

  lemma AddOneConsistent(e: EpollData, pd: Pollfd, refused: set<int>)
    requires Consistent(e) && NonNegative(e) && Acceptable(pd)
    ensures var (e', ok) := AddOne(e, pd, refused);
            && (ok ==> Consistent(e') && NonNegative(e'))
            && (!ok ==> ConsistentBut(e', {pd.fd}) && e'.interest == e.interest
                        && MaskOf(Data(e, pd.fd)) == NO_MASK && pd.fd in refused)
  {
    var (e', ok) := AddOne(e, pd, refused);
    AddOneCounts(e, pd, refused);
    assert Count(Data(e, pd.fd), Read) >= 0 && Count(Data(e, pd.fd), Write) >= 0 && Count(Data(e, pd.fd), Urgent) >= 0;
    forall fd | ok || fd != pd.fd
      ensures Registered(e', fd)
    {
      assert Registered(e, fd) && Registered(e, pd.fd);
    }
    ReplaceValue(e.interest, pd.fd, MaskOf(Data(e', pd.fd)));
    assert Registered(e, pd.fd);
  }

  lemma {:induction false} AddUntilFailureConsistent(e: EpollData, pds: seq<Pollfd>, refused: set<int>)
    requires Consistent(e) && NonNegative(e) && AllAcceptable(pds)
    ensures var (e1, done) := AddUntilFailure(e, pds, refused);
            if done < |pds|
            then ConsistentBut(e1, {pds[done].fd}) && MaskOf(Data(e, pds[done].fd)) == NO_MASK
            else Consistent(e1) && NonNegative(e1)
  {
    if pds != [] {
      var n := |pds| - 1;
      AddUntilFailureConsistent(e, pds[..n], refused);
      var (e1, done) := AddUntilFailure(e, pds[..n], refused);
      if done == n {
        AddOneConsistent(e1, pds[n], refused);
        AddUntilFailureCounts(e, pds[..n], refused);
        assert pds[..n][..n] == pds[..n];
        var fd := pds[n].fd;
        forall k
          ensures Count(Data(e, fd), k) <= Count(Data(e1, fd), k)
        {
        }
        NoMaskBelow(Data(e, fd), Data(e1, fd), e, fd);
      }
    }
  }

  lemma NoMaskBelow(d: FdData, d1: FdData, e: EpollData, fd: int)
    requires NonNegative(e) && d == Data(e, fd)
    requires forall k :: Count(d, k) <= Count(d1, k)
    ensures MaskOf(d1) == NO_MASK ==> MaskOf(d) == NO_MASK
  {
    assert Count(Data(e, fd), Read) >= 0 && Count(Data(e, fd), Write) >= 0 && Count(Data(e, fd), Urgent) >= 0;
    assert Count(d, Read) <= Count(d1, Read) && Count(d, Write) <= Count(d1, Write) && Count(d, Urgent) <= Count(d1, Urgent);
  }

  /** Registrations are a function of the counts. */
  lemma SameInterest(e: EpollData, e': EpollData)
    requires Consistent(e) && Consistent(e') && SameCounts(e, e')
    ensures e.interest == e'.interest && e.evtlistCnt == e'.evtlistCnt
  {
    forall fd
      ensures fd in e.interest <==> fd in e'.interest
      ensures fd in e.interest ==> e.interest[fd] == e'.interest[fd]
    {
      assert Registered(e, fd) && Registered(e', fd) && Data(e, fd) == Data(e', fd);
    }
  }

  /**
    `_st_epoll_pollset_add` keeps the agreement between counts and registrations; when it fails,
    also after some descriptors were added and even if the set repeats a descriptor, counts,
    registrations and the number of registered descriptors are as before.
   */
  lemma PollsetAddConsistent(e: EpollData, pds: seq<Pollfd>, refused: set<int>)
    requires Consistent(e) && NonNegative(e)
    ensures var (e', r) := AddPollset(e, pds, refused);
            && Consistent(e')
            && (r != Added ==> SameCounts(e, e') && e'.interest == e.interest && e'.evtlistCnt == e.evtlistCnt)
            && (r == Invalid <==> !AllAcceptable(pds))
            && (r == Refused ==> exists i :: 0 <= i < |pds| && pds[i].fd in refused)
  {
    var (e', r) := AddPollset(e, pds, refused);
    if AllAcceptable(pds) {
      AddUntilFailureConsistent(e, pds, refused);
      AddUntilFailureCounts(e, pds, refused);
      FailureIsRefusal(e, pds, refused);
      PollsetAddCounts(e, pds, refused);
      var (e1, done) := AddUntilFailure(e, pds, refused);
      if done < |pds| {
        forall fd, k
          ensures Count(Data(e1, fd), k) >= Refs(pds[..done + 1], fd, k)
        {
          assert Count(Data(e, fd), k) >= 0;
        }
        var bad := pds[done].fd;
        DelAllConsistent(e1, pds[..done + 1], {bad});
        DelAllCounts(e1, pds[..done + 1]);
        assert Data(e, bad) == Data(e', bad);
        assert Registered(e', bad) by {
          assert Data(e', bad).revents == NO_EVENTS;
        }
        assert Consistent(e');
        SameInterest(e, e');
      }
    } else {
      assert SameCounts(e, e);
    }
  }

  lemma {:induction false} FailureIsRefusal(e: EpollData, pds: seq<Pollfd>, refused: set<int>)
    requires Consistent(e) && NonNegative(e) && AllAcceptable(pds)
    ensures var (e1, done) := AddUntilFailure(e, pds, refused);
            done < |pds| ==> pds[done].fd in refused
  {
    if pds != [] {
      var n := |pds| - 1;
      FailureIsRefusal(e, pds[..n], refused);
      AddUntilFailureConsistent(e, pds[..n], refused);
      if AddUntilFailure(e, pds[..n], refused).1 == n {
        AddOneConsistent(AddUntilFailure(e, pds[..n], refused).0, pds[n], refused);
      }
    }
  }

  // ---------------------------------------------------------------- dispatch

  /** One element of the list filled by epoll_wait. */
  datatype Fired = Fired(fd: int, events: Events)

  function FdsOf(fired: seq<Fired>): set<int> {
    set i | 0 <= i < |fired| :: fired[i].fd
  }

  /** What epoll_wait may report: each registered descriptor at most once, with some event it was asked for. */
  ghost predicate MayFire(e: EpollData, fired: seq<Fired>) {
    && (forall i, j :: 0 <= i < j < |fired| ==> fired[i].fd != fired[j].fd)
    && (forall i :: 0 <= i < |fired| ==>
          && fired[i].fd in e.interest
          && fired[i].events != NO_EVENTS
          && (fired[i].events.rd ==> e.interest[fired[i].fd].rd)
          && (fired[i].events.wr ==> e.interest[fired[i].fd].wr)
          && (fired[i].events.pri ==> e.interest[fired[i].fd].pri))
  }

  /** The `revents` stored for a fired descriptor: an error or hangup also sets all awaited bits. */
  function Reported(d: FdData, ev: Events): Events {
    if ev.err || ev.hup
    then Events(ev.rd || d.rdCnt != 0, ev.wr || d.wrCnt != 0, ev.pri || d.exCnt != 0, ev.err, ev.hup)
    else ev
  }

  function MarkOne(e: EpollData, f: Fired): EpollData {
    SetData(e, f.fd, Data(e, f.fd).(revents := Reported(Data(e, f.fd), f.events)))
  }

  function Mark(e: EpollData, fired: seq<Fired>): EpollData {
    if fired == [] then e else MarkOne(Mark(e, fired[..|fired| - 1]), fired[|fired| - 1])
  }

  /** The `revents` that dispatch stores in a pollfd. */
  function RevOf(e: EpollData, pd: Pollfd): Events {
    var r := Data(e, pd.fd).revents;
    Events(pd.events.rd && r.rd, pd.events.wr && r.wr, pd.events.pri && r.pri, r.err, r.hup)
  }

  /** The end of dispatch for one fired descriptor. */
  function FinishOne(e: EpollData, f: Fired): EpollData {
    var e1 := SetData(e, f.fd, Data(e, f.fd).(revents := NO_EVENTS));
    var mask := MaskOf(Data(e, f.fd));
    if f.fd !in e.interest then e1
    else if mask != NO_MASK then e1.(interest := e.interest[f.fd := mask])
    else e1.(interest := e.interest - {f.fd}, evtlistCnt := e.evtlistCnt - 1)
  }

  function Finish(e: EpollData, fired: seq<Fired>): EpollData {
    if fired == [] then e else FinishOne(Finish(e, fired[..|fired| - 1]), fired[|fired| - 1])
  }

  /** What holds after the first loop of dispatch. */
  ghost predicate Marked(e: EpollData, e': EpollData, fired: seq<Fired>) {
    && e'.interest == e.interest && e'.evtlistCnt == e.evtlistCnt
    && (forall fd, k :: Count(Data(e', fd), k) == Count(Data(e, fd), k))
    && (forall fd :: fd !in FdsOf(fired) ==> Data(e', fd) == Data(e, fd))
    && (forall i :: 0 <= i < |fired| ==>
          Data(e', fired[i].fd).revents == Reported(Data(e, fired[i].fd), fired[i].events))
  }

  lemma MarkOneMore(e: EpollData, e1: EpollData, fired: seq<Fired>)
    requires fired != [] && Marked(e, e1, fired[..|fired| - 1])
    requires fired[|fired| - 1].fd !in FdsOf(fired[..|fired| - 1])
    ensures Marked(e, MarkOne(e1, fired[|fired| - 1]), fired)
  {
    var n := |fired| - 1;
    var front := fired[..n];
    assert FdsOf(fired) == FdsOf(front) + {fired[n].fd};
    forall i | 0 <= i < |fired|
      ensures Data(MarkOne(e1, fired[n]), fired[i].fd).revents == Reported(Data(e, fired[i].fd), fired[i].events)
    {
      if i < n {
        assert front[i] == fired[i] && fired[i].fd in FdsOf(front);
      }
    }
  }

  lemma {:induction false} MarkMarks(e: EpollData, fired: seq<Fired>)
    requires MayFire(e, fired)
    ensures Marked(e, Mark(e, fired), fired)
  {
    if fired != [] {
      var n := |fired| - 1;
      assert fired[n].fd !in FdsOf(fired[..n]);
      MarkMarks(e, fired[..n]);
      MarkOneMore(e, Mark(e, fired[..n]), fired);
    }
  }

  lemma MarkedIsConsistent(e: EpollData, e': EpollData, fired: seq<Fired>)
    requires Consistent(e) && MayFire(e, fired) && Marked(e, e', fired)
    ensures ConsistentBut(e', FdsOf(fired))
  {
    forall fd | fd !in FdsOf(fired)
      ensures Registered(e', fd) && Data(e', fd).revents == NO_EVENTS
    {
      assert Registered(e, fd);
    }
  }

  lemma {:induction false} MarkEffect(e: EpollData, fired: seq<Fired>)
    requires Consistent(e) && MayFire(e, fired)
    ensures Marked(e, Mark(e, fired), fired)
    ensures ConsistentBut(Mark(e, fired), FdsOf(fired))
  {
    MarkMarks(e, fired);
    MarkedIsConsistent(e, Mark(e, fired), fired);
  }

  lemma FdsOfFirst(f: Fired, rest: seq<Fired>)
    ensures FdsOf([f] + rest) == FdsOf(rest) + {f.fd}
  {
    var all := [f] + rest;
    forall fd
      ensures fd in FdsOf(all) <==> fd == f.fd || fd in FdsOf(rest)
    {
      if fd in FdsOf(rest) {
        var i :| 0 <= i < |rest| && rest[i].fd == fd;
        assert all[i + 1].fd == fd;
      }
      assert all[0] == f;
    }
  }

  lemma FinishOneConsistent(e: EpollData, f: Fired, off: set<int>)
    requires ConsistentBut(e, off + {f.fd}) && f.fd !in off
    requires f.fd in e.interest && off <= e.interest.Keys
    ensures var e' := FinishOne(e, f);
            && ConsistentBut(e', off)
            && off <= e'.interest.Keys
            && (forall fd, k :: Count(Data(e', fd), k) == Count(Data(e, fd), k))
            && (forall fd :: fd in off ==> Data(e', fd) == Data(e, fd))
  {
    var e' := FinishOne(e, f);
    forall fd | fd !in off
      ensures Registered(e', fd)
    {
      assert fd != f.fd ==> Registered(e, fd);
    }
    RemoveKey(e.interest, f.fd);
    ReplaceValue(e.interest, f.fd, MaskOf(Data(e, f.fd)));
  }

  /** Clearing fired descriptor number n - 1 brings its registration up to date. */
  lemma {:induction false} FinishPrefix(e: EpollData, fired: seq<Fired>, n: nat)
    requires n <= |fired|
    requires forall i, j :: 0 <= i < j < |fired| ==> fired[i].fd != fired[j].fd
    requires ConsistentBut(e, FdsOf(fired)) && FdsOf(fired) <= e.interest.Keys
    ensures var e' := Finish(e, fired[..n]);
            && ConsistentBut(e', FdsOf(fired[n..]))
            && FdsOf(fired[n..]) <= e'.interest.Keys
            && (forall fd, k :: Count(Data(e', fd), k) == Count(Data(e, fd), k))
            && (forall fd :: fd in FdsOf(fired[n..]) ==> Data(e', fd) == Data(e, fd))
  {
    if n == 0 {
      assert fired[..0] == [] && fired[0..] == fired;
    } else {
      FinishPrefix(e, fired, n - 1);
      var f := fired[n - 1];
      var e1 := Finish(e, fired[..n - 1]);
      assert fired[..n][..n - 1] == fired[..n - 1];
      assert fired[n - 1..] == [f] + fired[n..];
      FdsOfFirst(f, fired[n..]);
      FinishOneConsistent(e1, f, FdsOf(fired[n..]));
    }
  }

  lemma FinishConsistent(e: EpollData, fired: seq<Fired>)
    requires forall i, j :: 0 <= i < j < |fired| ==> fired[i].fd != fired[j].fd
    requires ConsistentBut(e, FdsOf(fired)) && FdsOf(fired) <= e.interest.Keys
    ensures Consistent(Finish(e, fired))
    ensures forall fd, k :: Count(Data(Finish(e, fired), fd), k) == Count(Data(e, fd), k)
  {
    FinishPrefix(e, fired, |fired|);
    assert fired[..|fired|] == fired && FdsOf(fired[|fired|..]) == {};
  }

  // ---------------------------------------------------------------- the C loops

  /** The event system object of `event.c`. */
  class EventSystem {
    var fds: map<int, FdData>
    var interest: map<int, Mask>
    var evtlistCnt: int

    function View(): EpollData
      reads this
    {
      EpollData(fds, interest, evtlistCnt)
    }

    constructor ()
      ensures View() == EpollData(map[], map[], 0)
    {
      fds, interest, evtlistCnt := map[], map[], 0;
    }

    /** `_ST_EPOLL_EVENTS(fd)`. */
    function EventsOf(fd: int): Mask
      reads this
    {
      MaskOf(Data(View(), fd))
    }

    /** EPOLL_CTL_MOD or EPOLL_CTL_DEL, whichever the mask asks for. */
    method ModifyOrDelete(fd: int, mask: Mask)
      modifies this
      ensures fds == old(fds)
      ensures fd !in old(interest) ==> interest == old(interest) && evtlistCnt == old(evtlistCnt)
      ensures fd in old(interest) && mask != NO_MASK ==>
                interest == old(interest)[fd := mask] && evtlistCnt == old(evtlistCnt)
      ensures fd in old(interest) && mask == NO_MASK ==>
                interest == old(interest) - {fd} && evtlistCnt == old(evtlistCnt) - 1
    {
      if fd in interest {
        if mask != NO_MASK {
          interest := interest[fd := mask];
        } else {
          interest := interest - {fd};
          evtlistCnt := evtlistCnt - 1;
        }
      }
    }

    /** `_st_epoll_pollset_del`. */
    method PollsetDel(pds: seq<Pollfd>)
      modifies this
      ensures View() == DelAll(old(View()), pds)
    {
      var i := 0;
      assert pds[..0] == [];
      while i < |pds|
        invariant 0 <= i <= |pds|
        invariant View() == DelAll(old(View()), pds[..i])
      {
        var fd := pds[i].fd;
        assert pds[..i + 1][..i] == pds[..i];
        var oldEvents := EventsOf(fd);
        fds := fds[fd := Bump(Data(View(), fd), pds[i].events, -1)];
        var events := EventsOf(fd);
        if events != oldEvents && Data(View(), fd).revents == NO_EVENTS {
          ModifyOrDelete(fd, events);
        }
        i := i + 1;
      }
      assert pds[..|pds|] == pds;
    }

    /** The body of the second loop of `_st_epoll_pollset_add`. */
    method AddEntry(pd: Pollfd, refused: set<int>) returns (ok: bool)
      modifies this
      ensures (View(), ok) == AddOne(old(View()), pd, refused)
    {
      var fd := pd.fd;
      var oldEvents := EventsOf(fd);
      fds := fds[fd := Bump(Data(View(), fd), pd.events, 1)];
      var events := EventsOf(fd);
      if events != oldEvents {
        if oldEvents != NO_MASK {
          if fd !in interest {
            return false;
          }
          interest := interest[fd := events];
        } else {
          if fd !in interest {
            if fd in refused {
              return false;
            }
            interest := interest[fd := events];
          }
          evtlistCnt := evtlistCnt + 1;
        }
      }
      return true;
    }

    /** `_st_epoll_pollset_add`. */
    method PollsetAdd(pds: seq<Pollfd>, refused: set<int>) returns (r: AddResult)
      modifies this
      ensures (View(), r) == AddPollset(old(View()), pds, refused)
    {
      var i := 0;
      while i < |pds|
        invariant 0 <= i <= |pds|
        invariant forall j :: 0 <= j < i ==> Acceptable(pds[j])
      {
        var pd := pds[i];
        if pd.fd < 0 || !(pd.events.rd || pd.events.wr || pd.events.pri || pd.events.other) || pd.events.other {
          return Invalid;
        }
        i := i + 1;
      }
      i := 0;
      assert pds[..0] == [];
      while i < |pds|
        invariant 0 <= i <= |pds|
        invariant (View(), i) == AddUntilFailure(old(View()), pds[..i], refused)
      {
        assert pds[..i + 1][..i] == pds[..i];
        var ok := AddEntry(pds[i], refused);
        if !ok {
          break;
        }
        i := i + 1;
      }
      if i < |pds| {
        FailureIsFinal(old(View()), pds, refused, i + 1);
        PollsetDel(pds[..i + 1]);
        return Refused;
      }
      assert pds[..|pds|] == pds;
      return Added;
    }

    /** The first loop of `_st_epoll_dispatch`: what fired is stored, with the awaited bits on an error. */
    method StoreEvents(fired: seq<Fired>)
      modifies this
      ensures View() == Mark(old(View()), fired)
    {
      var i := 0;
      assert fired[..0] == [];
      while i < |fired|
        invariant 0 <= i <= |fired|
        invariant View() == Mark(old(View()), fired[..i])
      {
        assert fired[..i + 1][..i] == fired[..i];
        StoreOne(fired[i]);
        i := i + 1;
      }
      assert fired[..|fired|] == fired;
    }

    /** The body of that loop: on an error the awaited events are reported as well. */
    method StoreOne(f: Fired)
      modifies this`fds
      ensures View() == MarkOne(old(View()), f)
    {
      var fd := f.fd;
      var ev := f.events;
      fds := fds[fd := Data(View(), fd).(revents := ev)];
      if ev.err || ev.hup {
        var d := Data(View(), fd);
        var mask := EventsOf(fd);
        fds := fds[fd := d.(revents := Events(ev.rd || mask.rd, ev.wr || mask.wr, ev.pri || mask.pri, ev.err, ev.hup))];
      }
    }

    /** The last loop of `_st_epoll_dispatch`: the descriptors that fired are cleared and registered anew or removed. */
    method SettleFired(fired: seq<Fired>)
      modifies this
      ensures View() == Finish(old(View()), fired)
    {
      var i := 0;
      assert fired[..0] == [];
      while i < |fired|
        invariant 0 <= i <= |fired|
        invariant View() == Finish(old(View()), fired[..i])
      {
        assert fired[..i + 1][..i] == fired[..i];
        var fd := fired[i].fd;
        fds := fds[fd := Data(View(), fd).(revents := NO_EVENTS)];
        var events := EventsOf(fd);
        ModifyOrDelete(fd, events);
        i := i + 1;
      }
      assert fired[..|fired|] == fired;
    }
  }

  /** Nothing is added after the first failure. */
  lemma {:induction false} FailureIsFinal(e: EpollData, pds: seq<Pollfd>, refused: set<int>, n: nat)
    requires n <= |pds| && AddUntilFailure(e, pds[..n], refused).1 < n
    ensures AddUntilFailure(e, pds, refused) == AddUntilFailure(e, pds[..n], refused)
    decreases |pds|
  {
    if n == |pds| {
      assert pds[..n] == pds;
    } else {
      assert pds[..|pds| - 1][..n] == pds[..n];
      FailureIsFinal(e, pds[..|pds| - 1], refused, n);
    }
  }
}
