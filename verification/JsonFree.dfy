/**
  `json_value_free_ex` (`srs_protocol_json.cpp`): a tree of nodes is freed without recursion and
  without a stack; the shrinking length of each node and the links to the parents serve as one.
  Nodes are numbered in the order of their allocation, so a child comes after its parent.
 */
module JsonFree {

  /** What the loop reads of a node: its children, its parent, and whether it owns a buffer. */
  datatype Node = Node(kids: seq<nat>, parent: int, hasBuffer: bool)

  /** What is freed: a node, or the values array or string that it owns. */
  datatype Freed = Whole(node: nat) | Buffer(node: nat)

  /** Children come after their parent and name it; no child is listed twice. */
  predicate WellFormed(nodes: seq<Node>) {
    forall i :: 0 <= i < |nodes| ==> GoodKids(nodes, i)
  }

  predicate GoodKids(nodes: seq<Node>, i: nat)
    requires i < |nodes|
  {
    && (forall j :: 0 <= j < |nodes[i].kids| ==> i < nodes[i].kids[j] < |nodes| && nodes[nodes[i].kids[j]].parent == i)
    && (forall j, k :: 0 <= j < k < |nodes[i].kids| ==> nodes[i].kids[j] != nodes[i].kids[k])
    && (nodes[i].kids != [] ==> nodes[i].hasBuffer)
  }

  // ---------------------------------------------------------------- what is freed, and in which order

  /** A node when its children are gone: first its buffer, then itself. */
  function FreeSelf(nodes: seq<Node>, i: nat): seq<Freed>
    requires i < |nodes|
  {
    (if nodes[i].hasBuffer then [Buffer(i)] else []) + [Whole(i)]
  }

  /** The first k children of node i, the last of them first, each with its whole subtree. */
  function FreeKids(nodes: seq<Node>, i: nat, k: nat): seq<Freed>
    requires WellFormed(nodes) && i < |nodes| && k <= |nodes[i].kids|
    decreases |nodes| - i, k
  {
    if k == 0 then []
    else
      assert GoodKids(nodes, i);
      FreeTree(nodes, nodes[i].kids[k - 1]) + FreeKids(nodes, i, k - 1)
  }

  function FreeTree(nodes: seq<Node>, i: nat): seq<Freed>
    requires WellFormed(nodes) && i < |nodes|
    decreases |nodes| - i, |nodes[i].kids| + 1
  {
    FreeKids(nodes, i, |nodes[i].kids|) + FreeSelf(nodes, i)
  }

  // ---------------------------------------------------------------- each once, children first

  /** i is x or lies above it. */
  predicate Above(nodes: seq<Node>, i: nat, x: nat)
    requires i < |nodes| && x < |nodes|
    decreases x
  {
    i == x || (0 <= nodes[x].parent < x && Above(nodes, i, nodes[x].parent))
  }

  lemma {:induction false} AboveIsBefore(nodes: seq<Node>, i: nat, x: nat)
    requires i < |nodes| && x < |nodes| && Above(nodes, i, x)
    ensures i <= x
    decreases x
  {
    if i != x {
      AboveIsBefore(nodes, i, nodes[x].parent);
    }
  }

  /** Two children of one node have nothing below them in common. */
  lemma {:induction false} BranchesApart(nodes: seq<Node>, v: nat, c1: nat, c2: nat, x: nat)
    requires v < |nodes| && c1 < |nodes| && c2 < |nodes| && x < |nodes|
    requires v < c1 && v < c2 && nodes[c1].parent == v && nodes[c2].parent == v
    requires Above(nodes, c1, x) && Above(nodes, c2, x)
    ensures c1 == c2
    decreases x
  {
    if x == c1 || x == c2 {
      if c1 != c2 {
        var other := if x == c1 then c2 else c1;
        assert Above(nodes, other, nodes[x].parent);
        AboveIsBefore(nodes, other, v);
      }
    } else {
      BranchesApart(nodes, v, c1, c2, nodes[x].parent);
    }
  }

  lemma {:induction false} AboveThrough(nodes: seq<Node>, i: nat, c: nat, x: nat)
    requires i < |nodes| && c < |nodes| && x < |nodes| && i < c && nodes[c].parent == i && Above(nodes, c, x)
    ensures Above(nodes, i, x)
    decreases x
  {
    if c == x {
      assert Above(nodes, i, nodes[x].parent);
    } else {
      AboveThrough(nodes, i, c, nodes[x].parent);
    }
  }

  /** Everything that is freed with a tree belongs to it, and its own parts come behind everything else. */
  lemma {:induction false} TreeIsBelow(nodes: seq<Node>, i: nat, f: Freed)
    requires WellFormed(nodes) && i < |nodes| && f in FreeTree(nodes, i)
    ensures f.node < |nodes| && Above(nodes, i, f.node)
    decreases |nodes| - i, |nodes[i].kids| + 1
  {
    if f !in FreeSelf(nodes, i) {
      KidsAreBelow(nodes, i, |nodes[i].kids|, f);
    }
  }

  lemma {:induction false} KidsAreBelow(nodes: seq<Node>, i: nat, k: nat, f: Freed)
    requires WellFormed(nodes) && i < |nodes| && k <= |nodes[i].kids| && f in FreeKids(nodes, i, k)
    ensures f.node < |nodes| && i < f.node && Above(nodes, i, f.node) && GoodKids(nodes, i)
    ensures exists j :: 0 <= j < k && Above(nodes, nodes[i].kids[j], f.node)
    decreases |nodes| - i, k
  {
    assert GoodKids(nodes, i);
    var c := nodes[i].kids[k - 1];
    if f in FreeTree(nodes, c) {
      TreeIsBelow(nodes, c, f);
      AboveThrough(nodes, i, c, f.node);
      AboveIsBefore(nodes, c, f.node);
    } else {
      KidsAreBelow(nodes, i, k - 1, f);
    }
  }

  ghost predicate NoRepeats(s: seq<Freed>) {
    forall a, b :: 0 <= a < b < |s| ==> s[a] != s[b]
  }

  lemma ConcatNoRepeats(s: seq<Freed>, t: seq<Freed>)
    requires NoRepeats(s) && NoRepeats(t) && forall f :: f in s ==> f !in t
    ensures NoRepeats(s + t)
  {
    forall a, b | 0 <= a < b < |s + t|
      ensures (s + t)[a] != (s + t)[b]
    {
      if a < |s| <= b {
        assert (s + t)[a] in s && (s + t)[b] in t;
      }
    }
  }

  /** Nothing is freed twice. */
  lemma {:induction false} TreeNoRepeats(nodes: seq<Node>, i: nat)
    requires WellFormed(nodes) && i < |nodes|
    ensures NoRepeats(FreeTree(nodes, i))
    decreases |nodes| - i, |nodes[i].kids| + 1
  {
    KidsNoRepeats(nodes, i, |nodes[i].kids|);
    forall f | f in FreeKids(nodes, i, |nodes[i].kids|)
      ensures f !in FreeSelf(nodes, i)
    {
      KidsAreBelow(nodes, i, |nodes[i].kids|, f);
    }
    ConcatNoRepeats(FreeKids(nodes, i, |nodes[i].kids|), FreeSelf(nodes, i));
  }

  lemma {:induction false} KidsNoRepeats(nodes: seq<Node>, i: nat, k: nat)
    requires WellFormed(nodes) && i < |nodes| && k <= |nodes[i].kids|
    ensures NoRepeats(FreeKids(nodes, i, k))
    decreases |nodes| - i, k
  {
    if k > 0 {
      assert GoodKids(nodes, i);
      var c := nodes[i].kids[k - 1];
      TreeNoRepeats(nodes, c);
      KidsNoRepeats(nodes, i, k - 1);
      forall f | f in FreeTree(nodes, c)
        ensures f !in FreeKids(nodes, i, k - 1)
      {
        TreeIsBelow(nodes, c, f);
        if f in FreeKids(nodes, i, k - 1) {
          KidsAreBelow(nodes, i, k - 1, f);
          var j :| 0 <= j < k - 1 && Above(nodes, nodes[i].kids[j], f.node);
          BranchesApart(nodes, i, nodes[i].kids[j], c, f.node);
        }
      }
      ConcatNoRepeats(FreeTree(nodes, c), FreeKids(nodes, i, k - 1));
    }
  }

  /** Every node reachable through children is freed, with its buffer. */
  lemma {:induction false} AllIsFreed(nodes: seq<Node>, i: nat, x: nat)
    requires WellFormed(nodes) && i < |nodes| && x < |nodes| && Reaches(nodes, i, x)
    ensures Whole(x) in FreeTree(nodes, i)
    ensures nodes[x].hasBuffer ==> Buffer(x) in FreeTree(nodes, i)
    decreases |nodes| - i
  {
    if i != x {
      var j :| 0 <= j < |nodes[i].kids| && i < nodes[i].kids[j] < |nodes| && Reaches(nodes, nodes[i].kids[j], x);
      AllIsFreed(nodes, nodes[i].kids[j], x);
      KidIsFreed(nodes, i, |nodes[i].kids|, j);
    }
  }

  predicate Reaches(nodes: seq<Node>, i: nat, x: nat)
    requires i < |nodes|
    decreases |nodes| - i
  {
    i == x || exists j :: 0 <= j < |nodes[i].kids| && i < nodes[i].kids[j] < |nodes| && Reaches(nodes, nodes[i].kids[j], x)
  }

  /** Nothing else is freed. */
  lemma {:induction false} OnlyTreeIsFreed(nodes: seq<Node>, i: nat, f: Freed)
    requires WellFormed(nodes) && i < |nodes| && f in FreeTree(nodes, i)
    ensures f.node < |nodes| && Reaches(nodes, i, f.node)
    decreases |nodes| - i, |nodes[i].kids| + 1
  {
    if f !in FreeSelf(nodes, i) {
      OnlyKidsAreFreed(nodes, i, |nodes[i].kids|, f);
    }
  }

  lemma {:induction false} OnlyKidsAreFreed(nodes: seq<Node>, i: nat, k: nat, f: Freed)
    requires WellFormed(nodes) && i < |nodes| && k <= |nodes[i].kids| && f in FreeKids(nodes, i, k)
    ensures f.node < |nodes| && Reaches(nodes, i, f.node)
    decreases |nodes| - i, k
  {
    assert GoodKids(nodes, i);
    var c := nodes[i].kids[k - 1];
    if f in FreeTree(nodes, c) {
      OnlyTreeIsFreed(nodes, c, f);
    } else {
      OnlyKidsAreFreed(nodes, i, k - 1, f);
    }
  }

  lemma {:induction false} KidIsFreed(nodes: seq<Node>, i: nat, k: nat, j: nat)
    requires WellFormed(nodes) && i < |nodes| && j < k <= |nodes[i].kids|
    ensures GoodKids(nodes, i)
    ensures forall f :: f in FreeTree(nodes, nodes[i].kids[j]) ==> f in FreeKids(nodes, i, k)
    decreases k
  {
    assert GoodKids(nodes, i);
    if j < k - 1 {
      KidIsFreed(nodes, i, k - 1, j);
    }
  }

  /** x is freed before y. */
  ghost predicate Before(s: seq<Freed>, x: Freed, y: Freed) {
    exists a, b :: 0 <= a < b < |s| && s[a] == x && s[b] == y
  }

  lemma BeforeInside(p: seq<Freed>, s: seq<Freed>, q: seq<Freed>, x: Freed, y: Freed)
    requires Before(s, x, y)
    ensures Before(p + s + q, x, y)
  {
    var a, b :| 0 <= a < b < |s| && s[a] == x && s[b] == y;
    assert (p + s + q)[|p| + a] == x && (p + s + q)[|p| + b] == y;
  }

  /** A node is freed after all that hangs below it, and after its buffer. */
  lemma {:induction false} SelfIsLast(nodes: seq<Node>, i: nat, f: Freed)
    requires WellFormed(nodes) && i < |nodes|
    requires f in FreeKids(nodes, i, |nodes[i].kids|) || (nodes[i].hasBuffer && f == Buffer(i))
    ensures Before(FreeTree(nodes, i), f, Whole(i))
  {
    var kids := FreeKids(nodes, i, |nodes[i].kids|);
    var s := FreeTree(nodes, i);
    assert s[|s| - 1] == Whole(i);
    if f in kids {
      var a :| 0 <= a < |kids| && kids[a] == f;
      assert s[a] == f;
    } else {
      assert s[|s| - 2] == Buffer(i);
    }
  }

  /** A child is freed before its parent, and a buffer before the node that owns it. */
  lemma {:induction false} ChildrenFirst(nodes: seq<Node>, root: nat, i: nat, j: nat)
    requires WellFormed(nodes) && root < |nodes| && i < |nodes| && Reaches(nodes, root, i)
    ensures GoodKids(nodes, i)
    ensures j < |nodes[i].kids| ==> Before(FreeTree(nodes, root), Whole(nodes[i].kids[j]), Whole(i))
    ensures nodes[i].hasBuffer ==> Before(FreeTree(nodes, root), Buffer(i), Whole(i))
    decreases |nodes| - root
  {
    assert GoodKids(nodes, i) && GoodKids(nodes, root);
    if root == i {
      if j < |nodes[i].kids| {
        KidIsFreed(nodes, i, |nodes[i].kids|, j);
        assert Whole(nodes[i].kids[j]) in FreeTree(nodes, nodes[i].kids[j]);
        SelfIsLast(nodes, i, Whole(nodes[i].kids[j]));
      }
      if nodes[i].hasBuffer {
        SelfIsLast(nodes, i, Buffer(i));
      }
    } else {
      var m :| 0 <= m < |nodes[root].kids| && root < nodes[root].kids[m] < |nodes| && Reaches(nodes, nodes[root].kids[m], i);
      ChildrenFirst(nodes, nodes[root].kids[m], i, j);
      if j < |nodes[i].kids| {
        InsideKids(nodes, root, m, Whole(nodes[i].kids[j]), Whole(i));
      }
      if nodes[i].hasBuffer {
        InsideKids(nodes, root, m, Buffer(i), Whole(i));
      }
    }
  }

  lemma {:induction false} InsideKids(nodes: seq<Node>, root: nat, m: nat, x: Freed, y: Freed)
    requires WellFormed(nodes) && root < |nodes| && m < |nodes[root].kids| && GoodKids(nodes, root)
    requires Before(FreeTree(nodes, nodes[root].kids[m]), x, y)
    ensures Before(FreeTree(nodes, root), x, y)
  {
    KidsBefore(nodes, root, |nodes[root].kids|, m, x, y);
    BeforeInside([], FreeKids(nodes, root, |nodes[root].kids|), FreeSelf(nodes, root), x, y);
    assert [] + FreeKids(nodes, root, |nodes[root].kids|) == FreeKids(nodes, root, |nodes[root].kids|);
  }

  lemma {:induction false} KidsBefore(nodes: seq<Node>, root: nat, k: nat, m: nat, x: Freed, y: Freed)
    requires WellFormed(nodes) && root < |nodes| && m < k <= |nodes[root].kids| && GoodKids(nodes, root)
    requires Before(FreeTree(nodes, nodes[root].kids[m]), x, y)
    ensures Before(FreeKids(nodes, root, k), x, y)
    decreases k
  {
    var first := FreeTree(nodes, nodes[root].kids[k - 1]);
    var others := FreeKids(nodes, root, k - 1);
    if m == k - 1 {
      BeforeInside([], first, others, x, y);
      assert [] + first == first;
    } else {
      KidsBefore(nodes, root, k - 1, m, x, y);
      BeforeInside(first, others, [], x, y);
      assert first + others + [] == first + others;
    }
  }

  // ---------------------------------------------------------------- the loop

  /** What remains to be freed when the loop stands at v: what is left below v, v itself, and likewise upwards. */
  function Pending(nodes: seq<Node>, lengths: seq<nat>, root: nat, v: nat): seq<Freed>
    requires WellFormed(nodes) && |lengths| == |nodes| && root <= v < |nodes|
    decreases v
  {
    FreeKids(nodes, v, if lengths[v] <= |nodes[v].kids| then lengths[v] else 0) + FreeSelf(nodes, v)
    + (if v == root || !(root <= nodes[v].parent < v) then [] else Pending(nodes, lengths, root, nodes[v].parent))
  }

  /** Changing the length of a node that is not above v leaves what is pending as it is. */
  lemma {:induction false} PendingFrame(nodes: seq<Node>, l1: seq<nat>, l2: seq<nat>, root: nat, v: nat)
    requires WellFormed(nodes) && |l1| == |nodes| == |l2| && root <= v < |nodes|
    requires forall i :: 0 <= i <= v ==> l1[i] == l2[i]
    ensures Pending(nodes, l1, root, v) == Pending(nodes, l2, root, v)
    decreases v
  {
    if v != root && root <= nodes[v].parent < v {
      PendingFrame(nodes, l1, l2, root, nodes[v].parent);
    }
  }

  /** Going down to the last child. */
  lemma {:induction false} GoDown(nodes: seq<Node>, l1: seq<nat>, l2: seq<nat>, root: nat, v: nat)
    requires WellFormed(nodes) && |l1| == |nodes| == |l2| && root <= v < |nodes|
    requires 0 < l1[v] <= |nodes[v].kids| && l2 == l1[v := l1[v] - 1]
    requires GoodKids(nodes, v) && var c := nodes[v].kids[l1[v] - 1]; l1[c] == |nodes[c].kids|
    ensures Pending(nodes, l2, root, nodes[v].kids[l1[v] - 1]) == Pending(nodes, l1, root, v)
  {
    var c := nodes[v].kids[l1[v] - 1];
    var up: seq<Freed> := if v == root || !(root <= nodes[v].parent < v) then [] else Pending(nodes, l1, root, nodes[v].parent);
    if v != root && root <= nodes[v].parent < v {
      PendingFrame(nodes, l1, l2, root, nodes[v].parent);
    }
    assert Pending(nodes, l2, root, v) == FreeKids(nodes, v, l1[v] - 1) + FreeSelf(nodes, v) + up;
    assert Pending(nodes, l2, root, c) == FreeKids(nodes, c, |nodes[c].kids|) + FreeSelf(nodes, c) + Pending(nodes, l2, root, v);
    Regroup(FreeTree(nodes, c), FreeKids(nodes, v, l1[v] - 1), FreeSelf(nodes, v), up);
  }

  lemma Regroup<T>(a: seq<T>, b: seq<T>, c: seq<T>, d: seq<T>)
    ensures (a + b) + c + d == a + (b + c + d)
  {
  }

  /** The nodes that have not been freed and are not above v still have all their children. */
  ghost predicate Untouched(nodes: seq<Node>, lengths: seq<nat>, freed: seq<Freed>, root: nat, v: nat)
    requires |lengths| == |nodes| && v < |nodes|
  {
    && (forall i :: 0 <= i < |nodes| ==> lengths[i] <= |nodes[i].kids|)
    && (forall i :: root <= i < |nodes| && Whole(i) !in freed && !Above(nodes, i, v) ==> lengths[i] == |nodes[i].kids|)
  }

  lemma {:induction false} RootAbove(nodes: seq<Node>, root: nat, v: nat)
    requires root <= v < |nodes| && v != root && Above(nodes, root, v)
    ensures root <= nodes[v].parent < v && Above(nodes, root, nodes[v].parent)
  {
    AboveIsBefore(nodes, root, nodes[v].parent);
  }

  lemma NotTwice(s: seq<Freed>, t: seq<Freed>, x: Freed)
    requires NoRepeats(s + t) && x in t
    ensures x !in s
  {
    var b :| 0 <= b < |t| && t[b] == x;
    forall a | 0 <= a < |s|
      ensures s[a] != x
    {
      assert (s + t)[a] != (s + t)[|s| + b];
    }
  }

  /** The last child of v has not been freed and lies beside the path to the root. */
  lemma {:induction false} NextIsUntouched(nodes: seq<Node>, lengths: seq<nat>, freed: seq<Freed>, root: nat, v: nat)
    requires WellFormed(nodes) && |lengths| == |nodes| && root <= v < |nodes|
    requires Untouched(nodes, lengths, freed, root, v) && 0 < lengths[v]
    requires freed + Pending(nodes, lengths, root, v) == FreeTree(nodes, root)
    ensures GoodKids(nodes, v)
    ensures var c := nodes[v].kids[lengths[v] - 1]; lengths[c] == |nodes[c].kids| && Whole(c) !in freed
  {
    assert GoodKids(nodes, v);
    var c := nodes[v].kids[lengths[v] - 1];
    TreeNoRepeats(nodes, root);
    var p := Pending(nodes, lengths, root, v);
    assert Whole(c) in p by {
      assert Whole(c) in FreeTree(nodes, c);
      assert Whole(c) in FreeKids(nodes, v, lengths[v]);
    }
    NotTwice(freed, p, Whole(c));
    if Above(nodes, c, v) {
      AboveIsBefore(nodes, c, v);
    }
  }

  /** The measure of the loop: the children still listed, and the nodes on the way up. */
  function Listed(lengths: seq<nat>): nat {
    if lengths == [] then 0 else Listed(lengths[..|lengths| - 1]) + lengths[|lengths| - 1]
  }

  lemma {:induction false} ListedLess(lengths: seq<nat>, v: nat)
    requires v < |lengths| && lengths[v] > 0
    ensures Listed(lengths[v := lengths[v] - 1]) == Listed(lengths) - 1
  {
    var n := |lengths| - 1;
    var l2 := lengths[v := lengths[v] - 1];
    if v == n {
      assert l2[..n] == lengths[..n];
    } else {
      assert l2[..n] == lengths[..n][v := lengths[v] - 1];
      ListedLess(lengths[..n], v);
    }
  }

  /** The state of the loop at node v. */
  ghost predicate Standing(nodes: seq<Node>, lengths: seq<nat>, freed: seq<Freed>, root: nat, v: nat) {
    && WellFormed(nodes) && |lengths| == |nodes| && root <= v < |nodes| && Above(nodes, root, v)
    && Untouched(nodes, lengths, freed, root, v)
    && freed + Pending(nodes, lengths, root, v) == FreeTree(nodes, root)
  }

  lemma {:induction false} StartsStanding(nodes: seq<Node>, lengths: seq<nat>, root: nat)
    requires WellFormed(nodes) && root < |nodes| && |lengths| == |nodes|
    requires forall i :: 0 <= i < |nodes| ==> lengths[i] == |nodes[i].kids|
    ensures Standing(nodes, lengths, [], root, root)
  {
    assert Pending(nodes, lengths, root, root) == FreeTree(nodes, root) + [];
  }

  /** From a node with children left the loop goes to the last of them. */
  lemma {:induction false} StepDown(nodes: seq<Node>, l1: seq<nat>, l2: seq<nat>, freed: seq<Freed>, root: nat, v: nat)
    requires Standing(nodes, l1, freed, root, v) && l1[v] != 0 && l2 == l1[v := l1[v] - 1]
    ensures l1[v] <= |nodes[v].kids|
    ensures v < nodes[v].kids[l1[v] - 1] < |nodes| && Standing(nodes, l2, freed, root, nodes[v].kids[l1[v] - 1])
    ensures Listed(l2) < Listed(l1)
  {
    NextIsUntouched(nodes, l1, freed, root, v);
    ListedLess(l1, v);
    GoDown(nodes, l1, l2, root, v);
    StillUntouched(nodes, l1, l2, freed, root, v, nodes[v].kids[l1[v] - 1]);
  }

  /**
    `json_value_free_ex` on the tree under `root`. It ends, and frees every node and every buffer
    of the tree exactly once, children before their parent.
   */
  method FreeValue(nodes: seq<Node>, root: nat, length: array<nat>) returns (freed: seq<Freed>)
    requires WellFormed(nodes) && root < |nodes| && length.Length == |nodes|
    requires forall i :: 0 <= i < |nodes| ==> length[i] == |nodes[i].kids|
    modifies length
    ensures freed == FreeTree(nodes, root) && NoRepeats(freed)
  {
    freed := [];
    var value: int := root;
    StartsStanding(nodes, length[..], root);
    while value >= 0
      invariant -1 <= value < |nodes|
      invariant value == -1 ==> freed == FreeTree(nodes, root)
      invariant value != -1 ==> Standing(nodes, length[..], freed, root, value)
      decreases Listed(length[..]), value
    {
      var v: nat := value;
      ghost var was := length[..];
      if length[v] != 0 {
        StepDown(nodes, was, was[v := was[v] - 1], freed, root, v);
        length[v] := length[v] - 1;
        assert length[..] == was[v := was[v] - 1];
        value := nodes[v].kids[length[v]];
      } else {
        StepUp(nodes, was, freed, root, v);
        freed := freed + FreeSelf(nodes, v);
        value := if v == root then -1 else nodes[v].parent;
      }
    }
    TreeNoRepeats(nodes, root);
  }

  lemma {:induction false} StillUntouched(nodes: seq<Node>, l1: seq<nat>, l2: seq<nat>, freed: seq<Freed>, root: nat, v: nat, c: nat)
    requires |l1| == |nodes| == |l2| && root <= v < c < |nodes| && l1[v] > 0 && l2 == l1[v := l1[v] - 1]
    requires Untouched(nodes, l1, freed, root, v) && nodes[c].parent == v && Above(nodes, root, v)
    ensures Untouched(nodes, l2, freed, root, c) && Above(nodes, root, c)
  {
    forall i | root <= i < |nodes| && Whole(i) !in freed && !Above(nodes, i, c)
      ensures l2[i] == |nodes[i].kids|
    {
      assert !Above(nodes, i, v);
      assert Above(nodes, v, v);
    }
  }

  /** A node without children left is freed, and the loop goes on with its parent. */
  lemma {:induction false} StepUp(nodes: seq<Node>, lengths: seq<nat>, freed: seq<Freed>, root: nat, v: nat)
    requires WellFormed(nodes) && |lengths| == |nodes| && root <= v < |nodes| && lengths[v] == 0
    requires Untouched(nodes, lengths, freed, root, v) && Above(nodes, root, v)
    requires freed + Pending(nodes, lengths, root, v) == FreeTree(nodes, root)
    ensures v == root ==> freed + FreeSelf(nodes, v) == FreeTree(nodes, root)
    ensures v != root ==>
              var p := nodes[v].parent; var freed' := freed + FreeSelf(nodes, v);
              && root <= p < v && Above(nodes, root, p)
              && Untouched(nodes, lengths, freed', root, p)
              && freed' + Pending(nodes, lengths, root, p) == FreeTree(nodes, root)
  {
    if v == root {
      assert Pending(nodes, lengths, root, v) == FreeSelf(nodes, v);
    } else {
      RootAbove(nodes, root, v);
      var p := nodes[v].parent;
      var freed' := freed + FreeSelf(nodes, v);
      assert Pending(nodes, lengths, root, v) == FreeSelf(nodes, v) + Pending(nodes, lengths, root, p);
      forall i | root <= i < |nodes| && Whole(i) !in freed' && !Above(nodes, i, p)
        ensures lengths[i] == |nodes[i].kids|
      {
        assert Whole(v) in freed';
        assert i != v && !Above(nodes, i, v);
      }
    }
  }
}
