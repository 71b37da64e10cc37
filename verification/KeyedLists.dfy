/**
  Lists of entries with keys, in the order in which the entries were set: setting an entry takes an
  older one of its key out and puts the new one at the end.
 */
module KeyedLists {
  import opened Wrappers

  /** x is the last entry, behind the old ones without the first one of its key. */
  ghost predicate Replaced<T(!new), K>(was: seq<T>, now: seq<T>, key: T -> K, x: T) {
    if forall i :: 0 <= i < |was| ==> key(was[i]) != key(x) then now == was + [x]
    else exists i :: IsFirst(was, key, key(x), i) && now == was[..i] + was[i + 1..] + [x]
  }

  /** Entry i is the first one with the key. */
  predicate IsFirst<T, K(==)>(q: seq<T>, key: T -> K, k: K, i: int) {
    0 <= i < |q| && key(q[i]) == k && forall j :: 0 <= j < i ==> key(q[j]) != k
  }

  /** The entries with other keys, in order. */
  function Others<T, K(==)>(q: seq<T>, key: T -> K, k: K): seq<T> {
    if q == [] then [] else (if key(q[0]) == k then [] else [q[0]]) + Others(q[1..], key, k)
  }

  /** The entries whose key does not come again, in order. */
  function Latest<T, K(==)>(q: seq<T>, key: T -> K): seq<T> {
    if q == [] then []
    else (if exists i :: 0 < i < |q| && key(q[i]) == key(q[0]) then [] else [q[0]]) + Latest(q[1..], key)
  }

  /** No key comes twice. */
  ghost predicate KeysDiffer<T, K>(q: seq<T>, key: T -> K) {
    forall i, j :: 0 <= i < j < |q| ==> key(q[i]) != key(q[j])
  }

  lemma {:induction false} OthersWithout<T, K>(q: seq<T>, key: T -> K, k: K)
    requires forall i :: 0 <= i < |q| ==> key(q[i]) != k
    ensures Others(q, key, k) == q
  {
    if q != [] {
      OthersWithout(q[1..], key, k);
    }
  }

  lemma {:induction false} OthersOfTwo<T, K>(p: seq<T>, q: seq<T>, key: T -> K, k: K)
    ensures Others(p + q, key, k) == Others(p, key, k) + Others(q, key, k)
  {
    if p == [] {
      assert p + q == q;
    } else {
      assert (p + q)[1..] == p[1..] + q;
      OthersOfTwo(p[1..], q, key, k);
    }
  }

  /** With different keys, the entry of a key is taken out wherever it is, and all others stay in order. */
  lemma ReplacedIsLast<T(!new), K>(was: seq<T>, now: seq<T>, key: T -> K, x: T)
    requires KeysDiffer(was, key) && Replaced(was, now, key, x)
    ensures now == Others(was, key, key(x)) + [x]
  {
    if forall i :: 0 <= i < |was| ==> key(was[i]) != key(x) {
      OthersWithout(was, key, key(x));
    } else {
      var i :| IsFirst(was, key, key(x), i) && now == was[..i] + was[i + 1..] + [x];
      FrontAndOne(was, i);
      OthersAround(was[..i], was[i], was[i + 1..], key);
      assert was == (was[..i] + [was[i]]) + was[i + 1..];
      Associative(was[..i], [was[i]], was[i + 1..]);
    }
  }

  lemma OthersAround<T, K>(front: seq<T>, x: T, back: seq<T>, key: T -> K)
    requires forall i :: 0 <= i < |front| ==> key(front[i]) != key(x)
    requires forall i :: 0 <= i < |back| ==> key(back[i]) != key(x)
    ensures Others(front + ([x] + back), key, key(x)) == front + back
  {
    OthersOfTwo(front, [x] + back, key, key(x));
    OthersOfTwo([x], back, key, key(x));
    OthersOne(x, key, key(x));
    OthersWithout(front, key, key(x));
    OthersWithout(back, key, key(x));
    assert [] + back == back;
  }

  lemma {:induction false} LatestIn<T(!new), K>(q: seq<T>, key: T -> K)
    ensures KeysDiffer(Latest(q, key), key)
    ensures forall x :: x in Latest(q, key) ==> x in q
  {
    if q != [] {
      var rest := Latest(q[1..], key);
      LatestIn(q[1..], key);
      assert q == [q[0]] + q[1..];
      if !(exists i :: 0 < i < |q| && key(q[i]) == key(q[0])) {
        forall j | 0 <= j < |rest|
          ensures key(rest[j]) != key(q[0])
        {
          assert rest[j] in q[1..];
        }
      } else {
        assert [] + rest == rest;
      }
    }
  }

  /** One entry more leaves those of other keys, and is the last. */
  lemma {:induction false} LatestMore<T, K>(q: seq<T>, key: T -> K, x: T)
    ensures Latest(q + [x], key) == Others(Latest(q, key), key, key(x)) + [x]
  {
    var all := q + [x];
    if q == [] {
      assert all == [x] && all[1..] == [];
    } else {
      LatestMore(q[1..], key, x);
      assert all[1..] == q[1..] + [x] && all[0] == q[0];
      assert (exists i :: 0 < i < |all| && key(all[i]) == key(q[0]))
             <==> key(x) == key(q[0]) || exists i :: 0 < i < |q| && key(q[i]) == key(q[0]) by {
        assert all[|q|] == x;
        assert forall i :: 0 < i < |q| ==> all[i] == q[i];
      }
      OthersOfTwo(if exists i :: 0 < i < |q| && key(q[i]) == key(q[0]) then [] else [q[0]], Latest(q[1..], key), key, key(x));
      OthersOne(q[0], key, key(x));
    }
  }

  lemma OthersOne<T, K>(x: T, key: T -> K, k: K)
    ensures Others([x], key, k) == if key(x) == k then [] else [x]
    ensures Others([], key, k) == []
  {
    assert [x][1..] == [];
  }

  /** Setting entries one after the other leaves the latest one of each key, in the order in which they were set. */
  lemma SetIsLatest<T(!new), K>(q: seq<T>, now: seq<T>, key: T -> K, x: T)
    requires Replaced(Latest(q, key), now, key, x)
    ensures now == Latest(q + [x], key)
  {
    LatestIn(q, key);
    ReplacedIsLast(Latest(q, key), now, key, x);
    LatestMore(q, key, x);
  }

  /** Taking an entry out behind the first one. */
  lemma TakenOutBehind<T>(q: seq<T>, rest: seq<T>, i: nat)
    requires q != [] && rest == q[1..] && i < |rest|
    ensures q[i + 1] == rest[i] && [q[0]] + (rest[..i] + rest[i + 1..]) == q[..i + 1] + q[(i + 1) + 1..]
  {
  }
}
