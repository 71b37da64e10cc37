/**
  The I/O loops of `io.c` that resume after partial transfers. The kernel is an object that
  answers each call from a script, so every statement holds for every sequence of answers; when
  the script is at its end, every further call fails. Memory is named by addresses: a transfer
  moves the bytes at some addresses, out of memory for a write and into memory for a read.
 */
module IoVectors {
  import opened Wrappers

  datatype Iov = Iov(base: nat, len: nat)

  function Min(a: nat, b: nat): nat {
    if a <= b then a else b
  }

  /** The addresses from `base` on. */
  function Range(base: nat, len: nat): (r: seq<nat>)
    ensures |r| == len && forall i :: 0 <= i < len ==> r[i] == base + i
  {
    seq(len, i => base + i)
  }

  /** The addresses of the bytes that the vectors name, in order. */
  function Addresses(v: seq<Iov>): seq<nat> {
    if v == [] then [] else Range(v[0].base, v[0].len) + Addresses(v[1..])
  }

  /** The vectors when their first n bytes have been moved. */
  function Advance(v: seq<Iov>, n: nat): (r: seq<Iov>)
    ensures |r| == |v|
  {
    if v == [] then []
    else if n >= v[0].len then [Iov(v[0].base + v[0].len, 0)] + Advance(v[1..], n - v[0].len)
    else [Iov(v[0].base + n, v[0].len - n)] + v[1..]
  }

  // ---------------------------------------------------------------- vectors

  lemma {:induction false} AddressesSplit(a: seq<Iov>, b: seq<Iov>)
    ensures Addresses(a + b) == Addresses(a) + Addresses(b)
  {
    if a == [] {
      assert a + b == b;
    } else {
      assert (a + b)[1..] == a[1..] + b;
      AddressesSplit(a[1..], b);
    }
  }

  lemma AddressesOne(x: Iov)
    ensures Addresses([x]) == Range(x.base, x.len)
  {
    assert [x][1..] == [];
    assert Addresses([x]) == Range(x.base, x.len) + Addresses([]);
  }

  lemma {:induction false} AdvanceNothing(v: seq<Iov>)
    ensures Advance(v, 0) == v
  {
    if v != [] && v[0].len == 0 {
      AdvanceNothing(v[1..]);
    }
  }

  /** What is left to be moved is exactly what was not moved. */
  lemma {:induction false} AdvanceAddresses(v: seq<Iov>, n: nat)
    requires n <= |Addresses(v)|
    ensures Addresses(Advance(v, n)) == Addresses(v)[n..]
  {
    if v == [] {
    } else if n >= v[0].len {
      var head := Iov(v[0].base + v[0].len, 0);
      AdvanceAddresses(v[1..], n - v[0].len);
      assert ([head] + Advance(v[1..], n - v[0].len))[1..] == Advance(v[1..], n - v[0].len);
      assert Range(head.base, head.len) == [];
    } else {
      var head := Iov(v[0].base + n, v[0].len - n);
      assert ([head] + v[1..])[1..] == v[1..];
      assert Range(head.base, head.len) == Range(v[0].base, v[0].len)[n..];
    }
  }

  lemma {:induction false} AdvanceFirst(x: Iov, rest: seq<Iov>, n: nat)
    ensures Advance([x] + rest, n) ==
            if n >= x.len then [Iov(x.base + x.len, 0)] + Advance(rest, n - x.len) else [Iov(x.base + n, x.len - n)] + rest
  {
    assert ([x] + rest)[1..] == rest;
  }

  lemma {:induction false} AdvanceTwice(v: seq<Iov>, m: nat, n: nat)
    ensures Advance(Advance(v, m), n) == Advance(v, m + n)
  {
    if v != [] {
      var x, rest := v[0], v[1..];
      assert v == [x] + rest;
      AdvanceFirst(x, rest, m);
      if m >= x.len {
        AdvanceTwice(rest, m - x.len, n);
        AdvanceUsedUp(x, rest, m, n, Advance(rest, m - x.len));
      } else {
        AdvanceWithin(x, rest, m, n);
      }
    }
  }

  /** The first vector has been used up by the first m bytes. */
  lemma {:induction false} AdvanceUsedUp(x: Iov, rest: seq<Iov>, m: nat, n: nat, rest': seq<Iov>)
    requires m >= x.len && Advance(rest', n) == Advance(rest, m - x.len + n)
    ensures Advance([Iov(x.base + x.len, 0)] + rest', n) == Advance([x] + rest, m + n)
  {
    AdvanceFirst(Iov(x.base + x.len, 0), rest', n);
    AdvanceFirst(x, rest, m + n);
  }

  lemma {:induction false} AdvanceWithin(x: Iov, rest: seq<Iov>, m: nat, n: nat)
    requires m < x.len
    ensures Advance([Iov(x.base + m, x.len - m)] + rest, n) == Advance([x] + rest, m + n)
  {
    AdvanceFirst(Iov(x.base + m, x.len - m), rest, n);
    AdvanceFirst(x, rest, m + n);
  }

  /** Vectors that have been used up do not count. */
  lemma {:induction false} AdvanceBehind(a: seq<Iov>, b: seq<Iov>, n: nat)
    requires forall i :: 0 <= i < |a| ==> a[i].len == 0
    ensures Advance(a + b, n) == a + Advance(b, n)
    ensures Addresses(a + b) == Addresses(b)
  {
    if a == [] {
      assert a + b == b && a + Advance(b, n) == Advance(b, n);
    } else {
      assert (a + b)[1..] == a[1..] + b;
      AdvanceBehind(a[1..], b, n);
      assert Range(a[0].base, 0) == [];
    }
  }

  // ---------------------------------------------------------------- the kernel

  datatype Reply = Moves(n: nat) | Interrupted | NotReady | Broken | Ready

  /** The result of a system call: the number of bytes, or why there are none. */
  datatype Errno = NoError | EINTR | EAGAIN | Other

  class Kernel {
    var script: seq<Reply>
    /** The addresses of all bytes moved so far, in order. */
    var moved: seq<nat>
    var eof: bool
    /** Some call was answered with an error other than EINTR and EAGAIN, or some wait failed. */
    var failed: bool
    /** The last transfer found no room or too little, and nobody has waited since. */
    var pending: bool

    constructor (s: seq<Reply>)
      ensures script == s && moved == [] && !eof && !failed && !pending
    {
      script, moved, eof, failed, pending := s, [], false, false, false;
    }

    /**
      read, readv, write or writev on the given addresses: any number of bytes from the front, or an
      error. Whoever has been told that there was no room has to wait before trying again.
     */
    method Transfer(addrs: seq<nat>, reading: bool) returns (n: nat, errno: Errno)
      requires !pending
      modifies this
      ensures script == (if old(script) == [] then [] else old(script)[1..])
      ensures errno == (if old(script) == [] then Other else ErrnoOf(old(script)[0]))
      ensures errno == NoError ==> n == Min(old(script)[0].n, |addrs|) && moved == old(moved) + addrs[..n] && eof == (n == 0)
      ensures errno != NoError ==> n == 0 && moved == old(moved) && eof == old(eof)
      ensures n == 0 ==> moved == old(moved)
      ensures failed == (old(failed) || errno == Other)
      ensures pending == (errno == EAGAIN || (errno == NoError && n < |addrs| && !(reading && n == 0)))
    {
      n, errno := 0, Other;
      if script == [] {
        failed := true;
        return;
      }
      errno := ErrnoOf(script[0]);
      if errno == NoError {
        n := Min(script[0].n, |addrs|);
        moved := moved + addrs[..n];
        eof := n == 0;
      }
      script := script[1..];
      failed := failed || errno == Other;
      pending := errno == EAGAIN || (errno == NoError && n < |addrs| && !(reading && n == 0));
    }

    /** `st_netfd_poll`. */
    method Poll() returns (ok: bool)
      modifies this
      ensures script == (if old(script) == [] then [] else old(script)[1..])
      ensures ok <==> old(script) != [] && old(script)[0] == Ready
      ensures moved == old(moved) && eof == old(eof)
      ensures failed == (old(failed) || !ok) && !pending
    {
      ok := script != [] && script[0] == Ready;
      if script != [] {
        script := script[1..];
      }
      failed := failed || !ok;
      pending := false;
    }
  }

  function ErrnoOf(reply: Reply): Errno {
    match reply
    case Moves(_) => NoError
    case Interrupted => EINTR
    case NotReady => EAGAIN
    case _ => Other
  }

  /** A call that returns -1 does so because of the kernel, and one that the kernel has failed returns -1. */
  predicate TellsFailure(before: bool, failed: bool, rc: int) {
    !before ==> (rc == -1 <==> failed)
  }

  // ---------------------------------------------------------------- the _resid functions

  /** What a `_resid` function has done with the vectors `was`, of which the last `size` are still in use. */
  ghost predicate Resumed(was: seq<Iov>, now: seq<Iov>, size: nat, moved: seq<nat>, moved': seq<nat>) {
    && |moved| <= |moved'| && size <= |was| == |now|
    && var t := |moved'| - |moved|;
       && t <= |Addresses(was)|
       && moved' == moved + Addresses(was)[..t]
       && now == Advance(was, t)
       && forall i :: 0 <= i < |now| - size ==> now[i].len == 0
  }

  /** The first vector in use still has bytes to be moved, or never had any; those behind it are as they were. */
  ghost predicate InUse(was: seq<Iov>, now: seq<Iov>, size: nat) {
    && size <= |was| == |now|
    && (forall i :: |now| - size < i < |now| ==> now[i] == was[i])
    && (size > 0 ==> now[|now| - size].len > 0 || was[|now| - size].len == 0)
  }

  /** The unused vectors name exactly the bytes that have not been moved. */
  lemma {:induction false} ResidualIsRest(was: seq<Iov>, now: seq<Iov>, size: nat, moved: seq<nat>, moved': seq<nat>)
    requires Resumed(was, now, size, moved, moved')
    ensures moved' + Addresses(now[|now| - size..]) == moved + Addresses(was)
    ensures |Addresses(now[|now| - size..])| == |Addresses(was)| - (|moved'| - |moved|)
  {
    var t := |moved'| - |moved|;
    var k := |now| - size;
    AdvanceAddresses(was, t);
    AdvanceBehind(now[..k], now[k..], 0);
    assert now == now[..k] + now[k..];
    Rejoin(moved, Addresses(was), t);
  }

  lemma Rejoin(a: seq<nat>, b: seq<nat>, t: nat)
    requires t <= |b|
    ensures (a + b[..t]) + b[t..] == a + b
  {
  }

  lemma FirstUsedUp(done: seq<Iov>, v: seq<Iov>, left: nat)
    requires v != [] && v[0].len <= left <= |Addresses(v)|
    ensures var used := Iov(v[0].base + v[0].len, 0);
            && done + Advance(v, left) == (done + [used]) + Advance(v[1..], left - v[0].len)
            && (done + v)[|done| := used] == (done + [used]) + v[1..]
    ensures left - v[0].len <= |Addresses(v[1..])|
    ensures v[1..] == [] ==> left == v[0].len
  {
    var used := Iov(v[0].base + v[0].len, 0);
    PushThrough(done, used, Advance(v[1..], left - v[0].len));
    ReplaceFirst(done, v, used);
  }

  lemma PushThrough<T>(done: seq<T>, x: T, rest: seq<T>)
    ensures done + ([x] + rest) == (done + [x]) + rest
  {
  }

  lemma ReplaceFirst<T>(done: seq<T>, v: seq<T>, x: T)
    requires v != []
    ensures (done + v)[|done| := x] == (done + [x]) + v[1..]
    ensures (done + v)[|done| := x] == done + ([x] + v[1..])
  {
  }

  lemma FirstPartlyUsed(done: seq<Iov>, v: seq<Iov>, left: nat)
    requires v != [] && left < v[0].len
    ensures done + Advance(v, left) == (done + v)[|done| := Iov(v[0].base + left, v[0].len - left)]
  {
    ReplaceFirst(done, v, Iov(v[0].base + left, v[0].len - left));
  }

  lemma StaysInUse(was: seq<Iov>, done: seq<Iov>, rest: seq<Iov>, x: Iov)
    requires |was| == |done| + |rest| && rest == was[|done|..] && rest != []
    requires x.len > 0 || rest[0].len == 0
    ensures InUse(was, (done + rest)[|done| := x], |rest|)
  {
  }

  lemma InUseAfter(was: seq<Iov>, mid: seq<Iov>, now: seq<Iov>, first: nat, size': nat)
    requires first <= |was| && InUse(was, mid, |was| - first) && |now| == |mid| && now[..first] == mid[..first]
    requires InUse(mid[first..], now[first..], size')
    ensures InUse(was, now, size')
  {
    assert forall i :: first <= i < |now| ==> now[i] == now[first..][i - first] && mid[i] == mid[first..][i - first];
  }

  /** n bytes are taken off the front of one vector. */
  method MoveOn(iov: array<Iov>, first: nat, i: nat, n: nat)
    requires first <= i < iov.Length && n <= iov[i].len
    modifies iov
    ensures iov[..first] == old(iov[..first])
    ensures iov[first..] == old(iov[first..])[i - first := Iov(old(iov[i]).base + n, old(iov[i]).len - n)]
  {
    iov[i] := Iov(iov[i].base + n, iov[i].len - n);
  }

  /** n bytes of `was` have been moved; `done` is used up, and `left` of the n bytes belong to `rest`. */
  ghost predicate Dropped(was: seq<Iov>, done: seq<Iov>, rest: seq<Iov>, n: nat, left: nat) {
    && |done| + |rest| == |was| && rest == was[|done|..]
    && (forall x :: x in done ==> x.len == 0)
    && Advance(was, n) == done + Advance(rest, left)
    && left <= |Addresses(rest)|
  }

  lemma DroppedMore(was: seq<Iov>, done: seq<Iov>, rest: seq<Iov>, n: nat, left: nat)
    requires Dropped(was, done, rest, n, left) && rest != [] && rest[0].len <= left
    ensures var used := Iov(rest[0].base + rest[0].len, 0);
            && Dropped(was, done + [used], rest[1..], n, left - rest[0].len)
            && (done + rest)[|done| := used] == (done + [used]) + rest[1..]
    ensures rest[1..] == [] ==> left == rest[0].len
  {
    FirstUsedUp(done, rest, left);
  }

  /** The first vector in use is used up by the bytes that were moved. */
  method DropFirst(iov: array<Iov>, first: nat, n: nat, i: nat, left: nat, ghost was: seq<Iov>, ghost done: seq<Iov>, ghost rest: seq<Iov>)
    returns (i': nat, left': nat, ghost done': seq<Iov>, ghost rest': seq<Iov>)
    requires i == first + |done| && rest != [] && first <= iov.Length && iov[first..] == done + rest
    requires Dropped(was, done, rest, n, left) && i < iov.Length && iov[i].len <= left
    modifies iov
    ensures i' == first + |done'| && iov[..first] == old(iov[..first]) && iov[first..] == done' + rest'
    ensures Dropped(was, done', rest', n, left') && |rest'| == |rest| - 1 && (rest' == [] ==> left' == 0)
  {
    assert iov[i] == iov[first..][i - first] == rest[0];
    DroppedMore(was, done, rest, n, left);
    left' := left - iov[i].len;
    MoveOn(iov, first, i, iov[i].len);
    done', rest' := done + [Iov(rest[0].base + rest[0].len, 0)], rest[1..];
    i' := i + 1;
  }

  /** The inner loop of the `_resid` functions: n bytes have been moved, and vectors that are used up are dropped. */
  method DropUsedUp(iov: array<Iov>, first: nat, n: nat)
    returns (first': nat, left: nat, ghost done: seq<Iov>, ghost rest: seq<Iov>)
    requires first < iov.Length && n <= |Addresses(iov[first..])|
    modifies iov
    ensures first' == first + |done| && iov[..first] == old(iov[..first]) && iov[first..] == done + rest
    ensures Dropped(old(iov[first..]), done, rest, n, left)
    ensures rest == [] || left < rest[0].len || left == 0
  {
    ghost var was := iov[first..];
    first', left, done, rest := first, n, [], was;
    while left >= iov[first'].len
      invariant first' == first + |done| && rest != []
      invariant iov[..first] == old(iov[..first]) && iov[first..] == done + rest
      invariant Dropped(was, done, rest, n, left)
      decreases |rest|
    {
      first', left, done, rest := DropFirst(iov, first, n, first', left, was, done, rest);
      if left == 0 {
        break;
      }
    }
    if rest != [] {
      assert iov[first'] == iov[first..][first' - first] == rest[0];
    }
  }

  /** The inner loop and the two statements behind it. */
  method SkipMoved(iov: array<Iov>, first: nat, size: nat, n: nat) returns (first': nat, size': nat)
    requires first + size == iov.Length && size > 0 && n <= |Addresses(iov[first..])|
    modifies iov
    ensures first' + size' == iov.Length && first <= first'
    ensures iov[..first] == old(iov[..first])
    ensures iov[first..] == Advance(old(iov[first..]), n)
    ensures forall i :: first <= i < first' ==> iov[i].len == 0
    ensures InUse(old(iov[first..]), iov[first..], size')
  {
    var left;
    ghost var done, rest;
    first', left, done, rest := DropUsedUp(iov, first, n);
    size' := iov.Length - first';
    if size' != 0 {
      assert iov[first'] == iov[first..][first' - first] == rest[0];
      if left < rest[0].len {
        FirstPartlyUsed(done, rest, left);
      } else {
        AdvanceNothing(rest);
      }
      StaysInUse(old(iov[first..]), done, rest, Iov(rest[0].base + left, rest[0].len - left));
      MoveOn(iov, first, first', left);
    }
    forall i | first <= i < first'
      ensures iov[i].len == 0
    {
      assert iov[i] == iov[first..][i - first] == done[i - first];
    }
  }

  lemma {:induction false} ResumedMore(was: seq<Iov>, mid: seq<Iov>, now: seq<Iov>, size: nat, size': nat, moved: seq<nat>, moved1: seq<nat>, n: nat)
    requires Resumed(was, mid, size, moved, moved1) && n <= |Addresses(mid[|mid| - size..])|
    requires |now| == |mid| && now[..|mid| - size] == mid[..|mid| - size]
    requires now[|mid| - size..] == Advance(mid[|mid| - size..], n)
    requires size' <= size && forall i :: |mid| - size <= i < |now| - size' ==> now[i].len == 0
    ensures Resumed(was, now, size', moved, moved1 + Addresses(mid[|mid| - size..])[..n])
  {
    var k := |mid| - size;
    ResidualIsRest(was, mid, size, moved, moved1);
    AdvanceAtTail(mid, now, k, n);
    AdvanceTwice(was, |moved1| - |moved|, n);
    TakeMore(moved, Addresses(was), moved1, Addresses(mid[k..]), n);
  }

  /** Advancing the vectors behind those that have been used up is advancing all of them. */
  lemma {:induction false} AdvanceAtTail(mid: seq<Iov>, now: seq<Iov>, k: nat, n: nat)
    requires k <= |mid| == |now| && (forall i :: 0 <= i < k ==> mid[i].len == 0)
    requires now[..k] == mid[..k] && now[k..] == Advance(mid[k..], n)
    ensures now == Advance(mid, n) && forall i :: 0 <= i < k ==> now[i] == mid[i]
  {
    assert mid == mid[..k] + mid[k..] && now == now[..k] + now[k..];
    AdvanceBehind(mid[..k], mid[k..], n);
    assert forall i :: 0 <= i < k ==> now[i] == now[..k][i] == mid[..k][i] == mid[i];
  }

  lemma TakeMore(a: seq<nat>, b: seq<nat>, a': seq<nat>, rest: seq<nat>, n: nat)
    requires a' + rest == a + b && |a| <= |a'| && n <= |rest|
    ensures a' + rest[..n] == a + b[..|a'| - |a| + n]
  {
    assert (a' + rest)[..|a'| + n] == a' + rest[..n];
    assert (a + b)[..|a'| + n] == a + b[..|a'| - |a| + n];
  }

  lemma ResumedAtFirst(was: seq<Iov>, moved: seq<nat>)
    ensures Resumed(was, was, |was|, moved, moved)
  {
    AdvanceNothing(was);
    assert moved + Addresses(was)[..0] == moved;
  }

  /** `SkipMoved` after n bytes have been moved. */
  method Absorb(k: Kernel, iov: array<Iov>, size: nat, n: nat, ghost was: seq<Iov>, ghost moved: seq<nat>, ghost before: seq<nat>)
    returns (size': nat)
    requires 0 < size <= iov.Length && n <= |Addresses(iov[iov.Length - size..])|
    requires k.moved == before + Addresses(iov[iov.Length - size..])[..n]
    requires Resumed(was, iov[..], size, moved, before) && InUse(was, iov[..], size)
    modifies iov
    ensures size' <= size && Resumed(was, iov[..], size', moved, k.moved) && InUse(was, iov[..], size')
  {
    var first := iov.Length - size;
    ghost var mid := iov[..];
    var first';
    first', size' := SkipMoved(iov, first, size, n);
    assert mid[first..] == old(iov[first..]);
    InUseAfter(was, mid, iov[..], first, size');
    ResumedMore(was, mid, iov[..], size, size', moved, before, n);
  }

  /** One system call and, unless it failed or (for a read) moved nothing, the bookkeeping after it. */
  method MoveSome(k: Kernel, iov: array<Iov>, size: nat, stopAtZero: bool, ghost was: seq<Iov>, ghost moved: seq<nat>)
    returns (n: nat, errno: Errno, size': nat)
    requires 0 < size <= iov.Length && Resumed(was, iov[..], size, moved, k.moved) && InUse(was, iov[..], size)
    requires !k.pending
    modifies k, iov
    ensures size' <= size && Resumed(was, iov[..], size', moved, k.moved) && InUse(was, iov[..], size')
    ensures |k.script| <= |old(k.script)| && (|k.script| == |old(k.script)| ==> errno == Other)
    ensures k.failed == (old(k.failed) || errno == Other)
    ensures size' == 0 && errno == NoError ==> !k.pending
    ensures errno == EINTR || errno == Other || (stopAtZero && errno == NoError && n == 0) ==> !k.pending
    ensures errno != NoError || (stopAtZero && n == 0) ==> size' == size
    ensures errno == NoError ==> k.eof == (n == 0)
  {
    ghost var before := k.moved;
    var first := iov.Length - size;
    size' := size;
    n, errno := k.Transfer(Addresses(iov[first..]), stopAtZero);
    if errno == NoError && !(stopAtZero && n == 0) {
      ResidualIsRest(was, iov[..], size, moved, before);
      size' := Absorb(k, iov, size, n, was, moved, before);
      ResidualIsRest(was, iov[..], size', moved, k.moved);
    }
  }

  /**
    `st_writev_resid`. However it ends, the bytes moved are a prefix of those that the vectors
    named, in order and each once, and the vectors that are left name exactly the others. It
    returns 0 only when nothing is left.
   */
  method WritevResid(k: Kernel, iov: array<Iov>) returns (rc: int, size: nat)
    requires !k.pending
    modifies k, iov
    ensures TellsFailure(old(k.failed), k.failed, rc) && !k.pending
    ensures size <= iov.Length && Resumed(old(iov[..]), iov[..], size, old(k.moved), k.moved)
    ensures InUse(old(iov[..]), iov[..], size)
    ensures rc == 0 || rc == -1
    ensures rc == 0 <==> size == 0
  {
    size := iov.Length;
    ghost var was, moved := iov[..], k.moved;
    ResumedAtFirst(was, moved);
    while size > 0
      invariant size <= iov.Length && Resumed(was, iov[..], size, moved, k.moved) && InUse(was, iov[..], size)
      invariant !k.pending && k.failed == old(k.failed)
      decreases |k.script|, size
    {
      var n, errno;
      n, errno, size := MoveSome(k, iov, size, false, was, moved);
      if errno == EINTR {
        continue;
      }
      if errno == Other {
        return -1, size;
      }
      if size == 0 {
        break;
      }
      var ok := k.Poll();
      if !ok {
        return -1, size;
      }
    }
    return 0, size;
  }

  /** `st_readv_resid`: as above, and 0 is also returned at the end of the input. */
  method ReadvResid(k: Kernel, iov: array<Iov>) returns (rc: int, size: nat)
    requires !k.pending
    modifies k, iov
    ensures TellsFailure(old(k.failed), k.failed, rc) && !k.pending
    ensures size <= iov.Length && Resumed(old(iov[..]), iov[..], size, old(k.moved), k.moved)
    ensures InUse(old(iov[..]), iov[..], size)
    ensures rc == 0 || rc == -1
    ensures size == 0 ==> rc == 0
    ensures rc == 0 ==> size == 0 || k.eof
  {
    size := iov.Length;
    ghost var was, moved := iov[..], k.moved;
    ResumedAtFirst(was, moved);
    while size > 0
      invariant size <= iov.Length && Resumed(was, iov[..], size, moved, k.moved) && InUse(was, iov[..], size)
      invariant !k.pending && k.failed == old(k.failed)
      decreases |k.script|, size
    {
      var n, errno;
      n, errno, size := MoveSome(k, iov, size, true, was, moved);
      if errno == EINTR {
        continue;
      }
      if errno == Other {
        return -1, size;
      }
      if errno == NoError && (n == 0 || size == 0) {
        break;
      }
      var ok := k.Poll();
      if !ok {
        return -1, size;
      }
    }
    return 0, size;
  }

  /** What the functions with one buffer do: a front part of it has been moved, and `resid` bytes have not. */
  ghost predicate MovedFront(base: nat, nbyte: nat, resid: nat, moved: seq<nat>, moved': seq<nat>) {
    resid <= nbyte && moved' == moved + Range(base, nbyte - resid)
  }

  lemma {:induction false} OneVector(base: nat, nbyte: nat, now: seq<Iov>, size: nat, moved: seq<nat>, moved': seq<nat>)
    requires Resumed([Iov(base, nbyte)], now, size, moved, moved')
    ensures MovedFront(base, nbyte, now[0].len, moved, moved') && (size == 0 ==> now[0].len == 0)
  {
    AddressesOne(Iov(base, nbyte));
  }

  /** `st_write_resid`. */
  method WriteResid(k: Kernel, base: nat, nbyte: nat) returns (rc: int, resid: nat)
    requires !k.pending
    modifies k
    ensures TellsFailure(old(k.failed), k.failed, rc) && !k.pending
    ensures MovedFront(base, nbyte, resid, old(k.moved), k.moved)
    ensures rc == 0 || rc == -1
    ensures rc == 0 ==> resid == 0
    ensures nbyte > 0 ==> (rc == 0 <==> resid == 0)
  {
    var iov := new Iov[1](_ => Iov(base, nbyte));
    assert iov[..] == [Iov(base, nbyte)];
    var size;
    rc, size := WritevResid(k, iov);
    OneVector(base, nbyte, iov[..], size, old(k.moved), k.moved);
    resid := iov[0].len;
  }

  /** `st_write`: all bytes have been moved iff their number is returned. */
  method Write(k: Kernel, base: nat, nbyte: nat) returns (rv: int)
    requires !k.pending
    modifies k
    ensures TellsFailure(old(k.failed), k.failed, rv) && !k.pending
    ensures exists resid :: MovedFront(base, nbyte, resid, old(k.moved), k.moved)
    ensures rv == nbyte || rv == -1
    ensures rv == nbyte ==> k.moved == old(k.moved) + Range(base, nbyte)
    ensures rv == -1 && nbyte > 0 ==> |k.moved| < |old(k.moved)| + nbyte
  {
    var rc, resid := WriteResid(k, base, nbyte);
    assert MovedFront(base, nbyte, resid, old(k.moved), k.moved);
    rv := if rc == 0 then nbyte - resid else -1;
  }

  /** `st_read_fully`: the number of bytes that were read, fewer than asked for only at the end of the input. */
  method ReadFully(k: Kernel, base: nat, nbyte: nat) returns (rv: int)
    requires !k.pending
    modifies k
    ensures TellsFailure(old(k.failed), k.failed, rv) && !k.pending
    ensures exists resid :: MovedFront(base, nbyte, resid, old(k.moved), k.moved)
    ensures rv == -1 || (0 <= rv <= nbyte && k.moved == old(k.moved) + Range(base, rv))
    ensures 0 <= rv < nbyte ==> k.eof
  {
    var rc, resid := ReadResid(k, base, nbyte);
    assert MovedFront(base, nbyte, resid, old(k.moved), k.moved);
    rv := if rc == 0 then nbyte - resid else -1;
  }

  /** `st_read_resid`. */
  method ReadResid(k: Kernel, base: nat, nbyte: nat) returns (rc: int, resid: nat)
    requires !k.pending
    modifies k
    ensures TellsFailure(old(k.failed), k.failed, rc) && !k.pending
    ensures MovedFront(base, nbyte, resid, old(k.moved), k.moved)
    ensures rc == 0 || rc == -1
    ensures rc == 0 ==> resid == 0 || k.eof
  {
    var iov := new Iov[1](_ => Iov(base, nbyte));
    assert iov[..] == [Iov(base, nbyte)];
    var size;
    rc, size := ReadvResid(k, iov);
    OneVector(base, nbyte, iov[..], size, old(k.moved), k.moved);
    resid := iov[0].len;
  }

  // ---------------------------------------------------------------- st_writev

  function TotalLength(v: seq<Iov>): nat {
    if v == [] then 0 else TotalLength(v[..|v| - 1]) + v[|v| - 1].len
  }

  lemma {:induction false} TotalIsAll(v: seq<Iov>)
    ensures |Addresses(v)| == TotalLength(v)
  {
    if v != [] {
      var n := |v| - 1;
      TotalIsAll(v[..n]);
      assert v == v[..n] + [v[n]];
      AddressesSplit(v[..n], [v[n]]);
      AddressesOne(v[n]);
    }
  }

  lemma SplitAt(v: seq<Iov>, i: nat)
    requires i < |v|
    ensures Addresses(v[..i + 1]) == Addresses(v[..i]) + Range(v[i].base, v[i].len)
    ensures Addresses(v) == Addresses(v[..i]) + Addresses(v[i..])
    ensures Addresses(v[i..]) == Range(v[i].base, v[i].len) + Addresses(v[i + 1..])
  {
    FrontAndOne(v, i);
    AddressesAppended(v[..i + 1], v[..i], v[i]);
    AddressesJoined(v, v[..i], v[i..]);
    assert v[i..][1..] == v[i + 1..];
  }

  lemma AddressesAppended(all: seq<Iov>, front: seq<Iov>, x: Iov)
    requires all == front + [x]
    ensures Addresses(all) == Addresses(front) + Range(x.base, x.len)
  {
    AddressesSplit(front, [x]);
    AddressesOne(x);
  }

  lemma AddressesJoined(all: seq<Iov>, front: seq<Iov>, back: seq<Iov>)
    requires all == front + back
    ensures Addresses(all) == Addresses(front) + Addresses(back)
  {
    AddressesSplit(front, back);
  }

  /** The vector in which byte n lies, and the bytes of it that come before. */
  method FindVector(iov: seq<Iov>, n: nat) returns (index: nat, off: nat)
    requires n < |Addresses(iov)|
    ensures index < |iov| && off < iov[index].len
    ensures n == |Addresses(iov[..index])| + off
  {
    index, off := 0, n;
    assert iov[..0] == [] && iov[0..] == iov;
    while off >= iov[index].len
      invariant index < |iov| && n == |Addresses(iov[..index])| + off
      invariant off < |Addresses(iov[index..])|
      decreases |iov| - index
    {
      SplitAt(iov, index);
      off := off - iov[index].len;
      index := index + 1;
    }
  }

  lemma RestFrom(iov: seq<Iov>, index: nat, off: nat)
    requires index < |iov| && off < iov[index].len
    ensures |Addresses(iov[..index])| + off <= |Addresses(iov)|
    ensures Addresses([Iov(iov[index].base + off, iov[index].len - off)] + iov[index + 1..])
            == Addresses(iov)[|Addresses(iov[..index])| + off..]
  {
    SplitAt(iov, index);
    FirstOfVectors(iov[index], iov[index + 1..], off);
  }

  /** The addresses of vectors without the first bytes of the first one. */
  lemma {:induction false} FirstOfVectors(x: Iov, rest: seq<Iov>, off: nat)
    requires off < x.len
    ensures Addresses([Iov(x.base + off, x.len - off)] + rest) == (Range(x.base, x.len) + Addresses(rest))[off..]
  {
    assert ([Iov(x.base + off, x.len - off)] + rest)[1..] == rest;
    assert Range(x.base + off, x.len - off) == Range(x.base, x.len)[off..];
  }

  /** The vectors, copied from the one in which byte n lies, without the bytes before it. */
  method CopyRest(iov: seq<Iov>, n: nat) returns (tmp: seq<Iov>)
    requires n < |Addresses(iov)|
    ensures tmp != [] && Addresses(tmp) == Addresses(iov)[n..]
    ensures |tmp| <= |iov|
  {
    var index, off := FindVector(iov, n);
    RestFrom(iov, index, off);
    tmp := [Iov(iov[index].base + off, iov[index].len - off)];
    ghost var first := tmp[0];
    var i := index + 1;
    assert iov[index + 1..i] == [];
    while i < |iov|
      invariant index + 1 <= i <= |iov|
      invariant tmp == [first] + iov[index + 1..i]
    {
      assert iov[index + 1..i + 1] == iov[index + 1..i] + [iov[i]];
      tmp := tmp + [iov[i]];
      i := i + 1;
    }
    assert iov[index + 1..|iov|] == iov[index + 1..];
  }

  /** All but the last `nleft` bytes have been moved, and `tmp` names those. */
  ghost predicate Progress(was: seq<nat>, moved: seq<nat>, all: seq<nat>, nleft: nat, tmp: seq<Iov>) {
    nleft <= |all| && moved == was + all[..|all| - nleft] && Addresses(tmp) == all[|all| - nleft..]
  }

  lemma MovedMore(was: seq<nat>, moved: seq<nat>, all: seq<nat>, nleft: nat, tmp: seq<Iov>, n: nat)
    requires Progress(was, moved, all, nleft, tmp) && n <= nleft
    ensures moved + Addresses(tmp)[..n] == was + all[..|all| - nleft + n]
    ensures n == nleft ==> moved + Addresses(tmp)[..n] == was + all
  {
    assert all[..|all|] == all;
  }

  /** The last vector of `st_writev` is left to `st_write`. */
  method WriteLast(k: Kernel, base: nat, nleft: nat, ghost was: seq<nat>, ghost all: seq<nat>) returns (ok: bool)
    requires 0 < nleft <= |all| && k.moved == was + all[..|all| - nleft] && Range(base, nleft) == all[|all| - nleft..]
    requires !k.pending
    modifies k
    ensures (!old(k.failed) ==> (!ok <==> k.failed)) && !k.pending
    ensures |was| <= |k.moved| <= |was| + |all| && k.moved == was + all[..|k.moved| - |was|]
    ensures ok <==> k.moved == was + all
  {
    ghost var mid := k.moved;
    var n := Write(k, base, nleft);
    ok := n == nleft;
    ghost var resid :| MovedFront(base, nleft, resid, mid, k.moved);
    assert Range(base, nleft)[..nleft - resid] == Range(base, nleft - resid);
    Rejoin(was, all, |all| - nleft);
    TakeMore(was, all, mid, Range(base, nleft), nleft - resid);
    assert ok ==> resid == 0 && all[..|all|] == all;
    assert !ok ==> |k.moved| < |was| + |all|;
  }

  method WriteOnly(k: Kernel, tmp: seq<Iov>, nleft: nat, ghost was: seq<nat>, ghost all: seq<nat>) returns (ok: bool)
    requires 0 < nleft && |tmp| == 1 && Progress(was, k.moved, all, nleft, tmp)
    requires !k.pending
    modifies k
    ensures (!old(k.failed) ==> (!ok <==> k.failed)) && !k.pending
    ensures MovedPrefix(was, k.moved, all) && (ok <==> k.moved == was + all)
  {
    AddressesOne(tmp[0]);
    assert tmp == [tmp[0]];
    ok := WriteLast(k, tmp[0].base, nleft, was, all);
  }

  /** A front part of the bytes has been moved, in order. */
  ghost predicate MovedPrefix(was: seq<nat>, moved: seq<nat>, all: seq<nat>) {
    |was| <= |moved| <= |was| + |all| && moved == was + all[..|moved| - |was|]
  }

  lemma ProgressIsPrefix(was: seq<nat>, moved: seq<nat>, all: seq<nat>, nleft: nat, tmp: seq<Iov>)
    requires Progress(was, moved, all, nleft, tmp)
    ensures MovedPrefix(was, moved, all) && (moved == was + all <==> nleft == 0)
  {
    if nleft == 0 {
      assert all[..|all|] == all;
    } else {
      assert |moved| < |was + all|;
    }
  }

  /** How a round of `st_writev` ends. */
  datatype Round = Again | Finished | Failed

  /** One round with several vectors: writev, and the vectors for what is left of it. */
  method WriteRound(k: Kernel, iov: seq<Iov>, tmp: seq<Iov>, nleft: nat, nbyte: nat, ghost was: seq<nat>, ghost all: seq<nat>)
    returns (r: Round, nleft': nat, tmp': seq<Iov>)
    requires Progress(was, k.moved, all, nleft, tmp) && all == Addresses(iov) && nbyte == |all| && nleft > 0
    requires !k.pending
    modifies k
    ensures (k.failed <==> old(k.failed) || r == Failed) && !k.pending
    ensures r == Again ==> |k.script| < |old(k.script)| && nleft' > 0 && Progress(was, k.moved, all, nleft', tmp')
    ensures MovedPrefix(was, k.moved, all) && (r == Finished <==> k.moved == was + all)
  {
    nleft', tmp' := nleft, tmp;
    ghost var before := k.moved;
    ProgressIsPrefix(was, before, all, nleft, tmp);
    var n, errno := k.Transfer(Addresses(tmp), false);
    if errno == EINTR {
      return Again, nleft, tmp;
    } else if errno == Other {
      return Failed, nleft, tmp;
    } else if errno == NoError {
      MovedMore(was, before, all, nleft, tmp, n);
      if n == nleft {
        WholeIsPrefix(was, all);
        return Finished, 0, tmp;
      }
      nleft' := nleft - n;
      tmp' := CopyRest(iov, nbyte - nleft');
      ProgressIsPrefix(was, k.moved, all, nleft', tmp');
    }
    var ok := k.Poll();
    r := if ok then Again else Failed;
  }

  lemma WholeIsPrefix(was: seq<nat>, all: seq<nat>)
    ensures MovedPrefix(was, was + all, all)
  {
    assert all[..|all|] == all;
  }

  /** The first loop of `st_writev`. */
  method CountBytes(iov: seq<Iov>) returns (nbyte: nat)
    ensures nbyte == |Addresses(iov)|
  {
    nbyte := 0;
    var index := 0;
    while index < |iov|
      invariant 0 <= index <= |iov| && nbyte == TotalLength(iov[..index])
    {
      assert iov[..index + 1][..index] == iov[..index];
      nbyte := nbyte + iov[index].len;
      index := index + 1;
    }
    assert iov[..|iov|] == iov;
    TotalIsAll(iov);
  }

  /**
    `st_writev`. The bytes moved are a prefix of those that the vectors name, in order, without
    gap and without repeat; their whole number is returned iff all of them have been moved.
   */
  method Writev(k: Kernel, iov: seq<Iov>) returns (rv: int)
    requires !k.pending
    modifies k
    ensures TellsFailure(old(k.failed), k.failed, rv) && !k.pending
    ensures MovedPrefix(old(k.moved), k.moved, Addresses(iov))
    ensures rv == |Addresses(iov)| || rv == -1
    ensures rv == |Addresses(iov)| <==> k.moved == old(k.moved) + Addresses(iov)
  {
    var nbyte := CountBytes(iov);
    var nleft: nat := nbyte;
    var tmp := iov;
    ghost var was, all := k.moved, Addresses(iov);
    StartOfWrite(was, iov);
    while nleft > 0
      invariant Progress(was, k.moved, all, nleft, tmp) && !k.pending && k.failed == old(k.failed)
      decreases |k.script|
    {
      if |tmp| == 1 {
        var ok := WriteOnly(k, tmp, nleft, was, all);
        return if ok then nbyte else -1;
      }
      var r;
      r, nleft, tmp := WriteRound(k, iov, tmp, nleft, nbyte, was, all);
      if r == Failed {
        return -1;
      }
      if r == Finished {
        return nbyte;
      }
    }
    ProgressIsPrefix(was, k.moved, all, nleft, tmp);
    return nbyte;
  }

  lemma StartOfWrite(was: seq<nat>, iov: seq<Iov>)
    ensures Progress(was, was, Addresses(iov), |Addresses(iov)|, iov)
  {
    var all := Addresses(iov);
    assert was + all[..0] == was && all[0..] == all;
  }
}
