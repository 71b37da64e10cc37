/**
  The timeout heap of `sched.c` as the source builds it: threads linked by `left` and `right`
  and addressed from the root by the bits of a node number. The source's `p`, a pointer to the
  pointer that is to be followed or overwritten, is a `Slot`.
 */
module TimeoutHeap {
  import opened TimeoutHeapSpec

  /** The part of a thread record that belongs to the heap; `id` is the number of the thread. */
  class Thread {
    const id: nat
    var due: int
    var left: Thread?
    var right: Thread?
    var heapIndex: nat

    constructor (id: nat)
      ensures this.id == id && left == null && right == null
    {
      this.id := id;
      due, left, right, heapIndex := 0, null, null, 0;
    }
  }

  /** The root pointer (no parent), or one of the two child pointers of a thread. */
  datatype Slot = Slot(parent: Thread?, isRight: bool) {
    ghost function Parent(): set<Thread> {
      if parent == null then {} else {parent}
    }
  }

  // ---------------------------------------------------------------- bits of a node number

  function Pow2(n: nat): (r: nat)
    ensures r >= 1
  {
    if n == 0 then 1 else 2 * Pow2(n - 1)
  }

  /** The C test `number & (1 << bit)`. */
  predicate BitSet(number: nat, bit: nat) {
    (number / Pow2(bit)) % 2 == 1
  }

  lemma HalfOfQuotient(a: nat, b: nat)
    requires b >= 1
    ensures (a / 2) / b == a / (2 * b)
  {
    var h := a / 2;
    var p, r := h / b, h % b;
    TwiceProduct(p, b);
    QuotientIs(a, 2 * b, p, 2 * r + a % 2);
  }

  lemma TwiceProduct(p: nat, b: nat)
    ensures p * (2 * b) == 2 * (p * b)
  {
  }

  lemma QuotientIs(a: nat, b: nat, q: nat, r: nat)
    requires a == q * b + r && r < b
    ensures a / b == q
  {
    var p := a / b;
    assert p + 1 <= q ==> (p + 1) * b <= q * b;
    assert q + 1 <= p ==> (q + 1) * b <= p * b;
  }

  /** Bit number `bit` of a node number tells whether the ancestor `bit` levels up is a right child. */
  lemma {:induction false} BitIsSide(number: nat, bit: nat)
    ensures number / Pow2(bit) == Ancestor(number, bit)
    ensures BitSet(number, bit) <==> Ancestor(number, bit) % 2 == 1
    decreases bit
  {
    if bit > 0 {
      BitIsSide(number / 2, bit - 1);
      HalfOfQuotient(number, Pow2(bit - 1));
    }
  }

  lemma {:induction false} PlaceIgnoresTarget<T>(h: Heap<T>, target: nat, d: nat, x: Timed<T>, y: Timed<T>)
    requires 1 <= target <= |h| && d <= Depth(target)
    ensures Place(Put(h, target, y), target, d, x) == Place(h, target, d, x)
    decreases d
  {
    if d > 0 {
      AncestorBounds(target, d);
      var index := Ancestor(target, d);
      if x.due < At(h, index).due {
        assert Put(Put(h, target, y), index, x) == Put(Put(h, index, x), target, y);
        PlaceIgnoresTarget(Put(h, index, x), target, d - 1, At(h, index), y);
      } else {
        PlaceIgnoresTarget(h, target, d - 1, x, y);
      }
    }
  }

  /** One level of the walk, when the carried element x is kept at the target position meanwhile. */
  lemma PlaceOneLevel<T>(h: Heap<T>, target: nat, d: nat, x: Timed<T>)
    requires 1 <= target <= |h| && d + 1 <= Depth(target) && At(h, target) == x
    ensures 1 <= Ancestor(target, d + 1) < target
    ensures var index := Ancestor(target, d + 1);
            Place(h, target, d + 1, x) ==
            if x.due < At(h, index).due
            then Place(Put(Put(h, index, x), target, At(h, index)), target, d, At(h, index))
            else Place(h, target, d, x)
  {
    AncestorBounds(target, d + 1);
    var index := Ancestor(target, d + 1);
    if x.due < At(h, index).due {
      PlaceIgnoresTarget(Put(h, index, x), target, d, At(h, index), At(h, index));
    }
  }

  lemma SameNodes<T>(h: Heap<T>, h': Heap<T>)
    requires |h| == |h'| && forall i :: 1 <= i <= |h| ==> At(h, i) == At(h', i)
    ensures h == h'
  {
    forall k | 0 <= k < |h|
      ensures h[k] == h'[k]
    {
      assert At(h, k + 1) == At(h', k + 1);
    }
  }

  lemma ReplaceContents<T>(s: seq<T>, i: nat, x: T)
    requires i < |s|
    ensures multiset(s[i := x]) + multiset{s[i]} == multiset(s) + multiset{x}
  {
    assert s[i] in multiset(s);
  }

  lemma ExchangeContents<T>(s: seq<T>, i: nat, j: nat)
    requires i < |s| && j < |s|
    ensures multiset(s[i := s[j]][j := s[i]]) == multiset(s)
  {
  }

  /** The number of bits of a node number, counted by shifting. */
  method CountBits(number: nat) returns (bits: int)
    requires number >= 1
    ensures bits == Depth(number) + 1
  {
    bits := 0;
    var s := number;
    while s != 0
      invariant bits + (if s == 0 then 0 else Depth(s) + 1) == Depth(number) + 1
      decreases s
    {
      s := s / 2;
      bits := bits + 1;
    }
  }

  class SleepQueue {
    var root: Thread?
    var size: nat
    /** Node number i is `nodes[i - 1]`. */
    ghost var nodes: seq<Thread>

    /** What the links should lead to at position i. */
    static ghost function NodeAt(ns: seq<Thread>, i: nat): Thread? {
      if 1 <= i <= |ns| then ns[i - 1] else null
    }

    /** Node i has its own number and links to its children; the link to node `hole` is not constrained. */
    static ghost predicate NodeWired(ns: seq<Thread>, i: nat, hole: nat)
      requires 1 <= i <= |ns|
      reads ns
    {
      && ns[i - 1].heapIndex == i
      && (1 <= hole <= |ns| ==> ns[i - 1] != ns[hole - 1])
      && (2 * i != hole ==> ns[i - 1].left == NodeAt(ns, 2 * i))
      && (2 * i + 1 != hole ==> ns[i - 1].right == NodeAt(ns, 2 * i + 1))
    }

    /** All nodes but node `hole` are linked as a complete binary tree. */
    ghost predicate Wired(ns: seq<Thread>, hole: nat)
      reads this, ns
    {
      && (hole != 1 ==> root == NodeAt(ns, 1))
      && (forall i :: 1 <= i <= |ns| && i != hole ==> NodeWired(ns, i, hole))
    }

    ghost predicate Valid()
      reads this, nodes
    {
      size == |nodes| && Wired(nodes, 0)
    }

    static ghost function ViewOf(ns: seq<Thread>): (h: Heap<Thread>)
      reads ns
      ensures |h| == |ns|
      ensures forall i :: 1 <= i <= |ns| ==> At(h, i) == Timed(ns[i - 1], ns[i - 1].due)
    {
      seq(|ns|, i requires 0 <= i < |ns| reads ns => Timed(ns[i], ns[i].due))
    }

    /** Exchanging two nodes exchanges them in the view; h is the view before. */
    static lemma ExchangedView(ns: seq<Thread>, ns': seq<Thread>, h: Heap<Thread>, i: nat, j: nat)
      requires 1 <= i <= |ns| && 1 <= j <= |ns|
      requires ns' == ns[i - 1 := ns[j - 1]][j - 1 := ns[i - 1]]
      requires |h| == |ns| && forall k :: 1 <= k <= |ns| ==> At(h, k) == Timed(ns[k - 1], ns[k - 1].due)
      ensures ViewOf(ns') == Put(Put(h, i, At(h, j)), j, At(h, i))
      ensures multiset(ns') == multiset(ns)
    {
      assert multiset(ns') == multiset(ns) by {
        ExchangeContents(ns, i - 1, j - 1);
      }
      SameNodes(ViewOf(ns'), Put(Put(h, i, At(h, j)), j, At(h, i)));
    }

    static ghost predicate Within(ns: seq<Thread>, repr: set<Thread>) {
      forall i :: 0 <= i < |ns| ==> ns[i] in repr
    }

    /** The heap as a value. */
    ghost function View(): Heap<Thread>
      reads this, nodes
    {
      ViewOf(nodes)
    }

    constructor ()
      ensures Valid() && View() == []
    {
      root, size, nodes := null, 0, [];
    }

    /** The slot through which node i of `ns` is reached. */
    static ghost predicate IsSlotOf(p: Slot, ns: seq<Thread>, i: nat) {
      && 1 <= i <= |ns|
      && p.parent == NodeAt(ns, i / 2)
      && (i > 1 ==> (p.isRight <==> i % 2 == 1))
    }

    function Load(p: Slot): Thread?
      reads this, p.parent
    {
      if p.parent == null then root else if p.isRight then p.parent.right else p.parent.left
    }

    method Store(p: Slot, t: Thread?)
      modifies this`root, p.Parent()`left, p.Parent()`right
      ensures p.parent == null ==> root == t
      ensures p.parent != null ==> root == old(root)
      ensures p.parent != null && p.isRight ==> p.parent.right == t && p.parent.left == old(p.parent.left)
      ensures p.parent != null && !p.isRight ==> p.parent.left == t && p.parent.right == old(p.parent.right)
    {
      if p.parent == null {
        root := t;
      } else if p.isRight {
        p.parent.right := t;
      } else {
        p.parent.left := t;
      }
    }

    /** `*p = thread` with thread taking over the number and the links of node `index`. */
    method Exchange(p: Slot, thread: Thread, index: nat, ghost hole: nat,
      ghost ns: seq<Thread>, ghost repr: set<Thread>)
      returns (t: Thread, ghost ns': seq<Thread>)
      requires 1 <= index < hole <= |ns|
      requires Wired(ns, hole) && ns[hole - 1] == thread
      requires IsSlotOf(p, ns, index)
      requires Within(ns, repr)
      modifies this`root, repr`left, repr`right, repr`heapIndex
      ensures t == ns[index - 1]
      ensures ns' == ns[index - 1 := thread][hole - 1 := t]
      ensures Wired(ns', hole)
      ensures IsSlotOf(p, ns', index) && Load(p) == thread
    {
      assert NodeWired(ns, index, hole);
      assert index > 1 ==> NodeWired(ns, index / 2, hole);
      t := Load(p);
      thread.left := t.left;
      thread.right := t.right;
      Store(p, thread);
      thread.heapIndex := index;
      ns' := ns[index - 1 := thread][hole - 1 := t];
      forall i | 1 <= i <= |ns'| && i != hole
        ensures NodeWired(ns', i, hole)
      {
        assert i != index ==> old(NodeWired(ns, i, hole));
      }
    }

    /** One comparison of the walk: an earlier thread displaces node `index`. */
    method Rise(p: Slot, thread: Thread, index: nat, ghost hole: nat,
      ghost ns: seq<Thread>, ghost repr: set<Thread>)
      returns (t: Thread, ghost ns': seq<Thread>)
      requires 1 <= index < hole <= |ns|
      requires Wired(ns, hole) && ns[hole - 1] == thread
      requires IsSlotOf(p, ns, index)
      requires Within(ns, repr)
      modifies this`root, repr`left, repr`right, repr`heapIndex
      ensures |ns'| == |ns| && ns'[hole - 1] == t && Wired(ns', hole)
      ensures multiset(ns') == multiset(ns) && Within(ns', repr)
      ensures forall k :: hole <= k < |ns| ==> ns'[k] == ns[k]
      ensures IsSlotOf(p, ns', index) && Load(p) == ns'[index - 1]
      ensures var h := old(ViewOf(ns));
              ViewOf(ns') == if At(h, hole).due < At(h, index).due
                             then Put(Put(h, index, At(h, hole)), hole, At(h, index)) else h
    {
      assert NodeWired(ns, index, hole);
      assert index > 1 ==> NodeWired(ns, index / 2, hole);
      ghost var h := ViewOf(ns);
      if thread.due < Load(p).due {
        t, ns' := Exchange(p, thread, index, hole, ns, repr);
        ExchangedView(ns, ns', h, index, hole);
      } else {
        t, ns' := thread, ns;
      }
    }

    /** `*p = thread` at the end of the walk. */
    method Attach(p: Slot, thread: Thread, index: nat, ghost ns: seq<Thread>, ghost repr: set<Thread>)
      requires 1 <= index <= |ns| && ns[index - 1] == thread
      requires Wired(ns, index) && IsSlotOf(p, ns, index)
      requires Within(ns, repr)
      modifies this`root, repr`left, repr`right, repr`heapIndex
      ensures root == NodeAt(ns, 1) && Load(p) == thread
      ensures thread.heapIndex == index && thread.left == null && thread.right == null
      ensures forall i :: 1 <= i <= |ns| && i != index ==> NodeWired(ns, i, 0)
    {
      assert index > 1 ==> NodeWired(ns, index / 2, index);
      thread.heapIndex := index;
      Store(p, thread);
      thread.left := null;
      thread.right := null;
      forall i | 1 <= i <= |ns| && i != index
        ensures NodeWired(ns, i, 0)
      {
        assert old(NodeWired(ns, i, index)) && (index > 1 ==> old(NodeWired(ns, index / 2, index)));
      }
    }

    /** Following one bit of the path from node `index` leads to the slot of its child. */
    lemma SlotOfChild(ns: seq<Thread>, index: nat, child: nat, hole: nat)
      requires Wired(ns, hole)
      requires 1 <= index <= |ns| && index != hole && child / 2 == index && child <= |ns|
      ensures IsSlotOf(Slot(ns[index - 1], child % 2 == 1), ns, child)
      ensures child != hole ==> Load(Slot(ns[index - 1], child % 2 == 1)) == ns[child - 1]
    {
      assert NodeWired(ns, index, hole);
    }

    /** One round of the loop of `heap_insert`: compare, exchange, and follow bit number `bit`. */
    method Descend(p: Slot, thread: Thread, index: nat, bit: nat, target: nat,
      ghost ns: seq<Thread>, ghost repr: set<Thread>)
      returns (p': Slot, t: Thread, index': nat, ghost ns': seq<Thread>)
      requires 1 <= target <= |ns| && bit < Depth(target) && index == Ancestor(target, bit + 1)
      requires Wired(ns, target) && ns[target - 1] == thread
      requires IsSlotOf(p, ns, index)
      requires Within(ns, repr)
      modifies this`root, repr`left, repr`right, repr`heapIndex
      ensures index' == Ancestor(target, bit) && 1 <= index' <= target
      ensures |ns'| == |ns| && ns'[target - 1] == t && Wired(ns', target)
      ensures multiset(ns') == multiset(ns) && Within(ns', repr)
      ensures IsSlotOf(p', ns', index')
      ensures forall k :: target <= k < |ns| ==> ns'[k] == ns[k]
      ensures Place(ViewOf(ns'), target, bit, At(ViewOf(ns'), target))
           == old(Place(ViewOf(ns), target, bit + 1, At(ViewOf(ns), target)))
    {
      AncestorBounds(target, bit);
      AncestorStep(target, bit);
      BitIsSide(target, bit);
      PlaceOneLevel(ViewOf(ns), target, bit, At(ViewOf(ns), target));
      t, ns' := Rise(p, thread, index, target, ns, repr);
      index' := 2 * index;
      if BitSet(target, bit) {
        p' := Slot(Load(p), true);
        index' := index' + 1;
      } else {
        p' := Slot(Load(p), false);
      }
      SlotOfChild(ns', index, index', target);
    }

    /**
      `heap_insert`: walks from the root to the position `thread.heapIndex`, whose slot is overwritten.
      On return only the two child links of the node placed there remain to be set by the caller.
     */
    method HeapInsertAt(thread: Thread, ghost ns: seq<Thread>, ghost repr: set<Thread>)
      returns (p: Slot, ghost ns': seq<Thread>)
      requires 1 <= thread.heapIndex <= |ns| && ns[thread.heapIndex - 1] == thread
      requires Wired(ns, thread.heapIndex)
      requires Within(ns, repr)
      modifies this`root, repr`left, repr`right, repr`heapIndex
      ensures |ns'| == |ns| && multiset(ns') == multiset(ns) && Within(ns', repr)
      ensures forall k :: old(thread.heapIndex) <= k < |ns| ==> ns'[k] == ns[k]
      ensures ViewOf(ns') == old(var target := thread.heapIndex;
                                 Place(ViewOf(ns), target, Depth(target), Timed(thread, thread.due)))
      ensures root == NodeAt(ns', 1)
      ensures var target := old(thread.heapIndex);
              && IsSlotOf(p, ns', target)
              && Load(p) == ns'[target - 1]
              && ns'[target - 1].heapIndex == target
              && ns'[target - 1].left == null && ns'[target - 1].right == null
              && forall i :: 1 <= i <= |ns'| && i != target ==> NodeWired(ns', i, 0)
    {
      ghost var h0 := ViewOf(ns);
      var target := thread.heapIndex;
      ghost var x0 := Timed(thread, thread.due);
      var bits := CountBits(target);
      var t := thread;
      ns' := ns;
      p := Slot(null, false);
      var index := 1;
      var bit: int := bits - 2;
      AncestorTop(target);
      while bit >= 0
        invariant -1 <= bit < Depth(target)
        invariant index == Ancestor(target, bit + 1) && 1 <= index <= target
        invariant |ns'| == |ns| && multiset(ns') == multiset(ns)
        invariant Within(ns', repr) && forall k :: target <= k < |ns| ==> ns'[k] == ns[k]
        invariant ns'[target - 1] == t
        invariant Wired(ns', target)
        invariant IsSlotOf(p, ns', index)
        invariant Place(ViewOf(ns'), target, bit + 1, At(ViewOf(ns'), target)) == Place(h0, target, Depth(target), x0)
        decreases bit
      {
        p, t, index, ns' := Descend(p, t, index, bit, target, ns', repr);
        bit := bit - 1;
      }
      Attach(p, t, target, ns', repr);
    }

    ghost function Repr(): set<Thread>
      reads this
    {
      set o | o in nodes
    }

    /** `_st_add_sleep_q`; the caller has computed the due time. */
    method Add(thread: Thread, due: int)
      requires Valid() && thread !in nodes
      modifies this, thread, Repr()`left, Repr()`right, Repr()`heapIndex
      ensures Valid()
      ensures View() == HeapInsert(old(View()), Timed(thread, due))
      ensures multiset(nodes) == old(multiset(nodes)) + multiset{thread}
    {
      thread.due := due;
      size := size + 1;
      thread.heapIndex := size;
      ghost var ns := nodes + [thread];
      forall i | 1 <= i <= |ns| && i != size
        ensures NodeWired(ns, i, size)
      {
        assert old(NodeWired(nodes, i, 0));
      }
      SameNodes(ViewOf(ns), old(View()) + [Timed(thread, due)]);
      var p;
      p, nodes := HeapInsertAt(thread, ns, Repr() + {thread});
      forall i | 1 <= i <= |nodes|
        ensures NodeWired(nodes, i, 0)
      {
      }
    }

    /** The slot of node i, found by following the bits of i. */
    method FindSlot(i: nat) returns (p: Slot)
      requires Valid() && 1 <= i <= size
      ensures IsSlotOf(p, nodes, i) && Load(p) == nodes[i - 1]
    {
      var bits := CountBits(i);
      p := Slot(null, false);
      ghost var index := 1;
      var bit: int := bits - 2;
      AncestorTop(i);
      while bit >= 0
        invariant -1 <= bit < Depth(i)
        invariant index == Ancestor(i, bit + 1) && 1 <= index <= i
        invariant IsSlotOf(p, nodes, index) && Load(p) == nodes[index - 1]
        decreases bit
      {
        AncestorBounds(i, bit);
        AncestorStep(i, bit);
        BitIsSide(i, bit);
        SlotOfChild(nodes, index, Ancestor(i, bit), 0);
        if BitSet(i, bit) {
          p := Slot(Load(p), true);
        } else {
          p := Slot(Load(p), false);
        }
        index := Ancestor(i, bit);
        bit := bit - 1;
      }
    }

    /** The links and numbers of t and its child y after they change places. */
    static method SwapWithChild(t: Thread, y: Thread)
      requires t != y && (y == t.left || y == t.right) && t.left != t.right
      modifies t`left, t`right, t`heapIndex, y`left, y`right, y`heapIndex
      ensures t.left == old(y.left) && t.right == old(y.right)
      ensures y.left == old(if y == t.left then t else t.left)
      ensures y.right == old(if y == t.left then t.right else t)
      ensures t.heapIndex == old(y.heapIndex) && y.heapIndex == old(t.heapIndex)
    {
      var tl, tr := y.left, y.right;
      if y == t.left {
        y.left := t;
        y.right := t.right;
      } else {
        y.left := t.left;
        y.right := t;
      }
      t.left := tl;
      t.right := tr;
      var indexTmp := t.heapIndex;
      t.heapIndex := y.heapIndex;
      y.heapIndex := indexTmp;
    }

    /** The pointer assignments of one exchange of the loop of `heap_delete`. */
    method Relink(p: Slot, t: Thread, y: Thread, ghost repr: set<Thread>) returns (p': Slot)
      requires t in repr && y in repr && (p.parent != null ==> p.parent in repr)
      requires t != y && (y == t.left || y == t.right) && t.left != t.right
      requires p.parent != t && p.parent != y
      modifies this`root, repr`left, repr`right, repr`heapIndex
      ensures Load(p) == y && (p.parent != null ==> root == old(root))
      ensures p' == Slot(y, old(y != t.left))
      ensures t.left == old(y.left) && t.right == old(y.right) && t.heapIndex == old(y.heapIndex)
      ensures y.left == old(if y == t.left then t else t.left)
      ensures y.right == old(if y == t.left then t.right else t) && y.heapIndex == old(t.heapIndex)
      ensures p.parent != null ==> p.parent.heapIndex == old(p.parent.heapIndex)
      ensures p.parent != null && p.isRight ==> p.parent.left == old(p.parent.left)
      ensures p.parent != null && !p.isRight ==> p.parent.right == old(p.parent.right)
      ensures forall o :: o in repr && o != t && o != y && o != p.parent ==>
                o.left == old(o.left) && o.right == old(o.right) && o.heapIndex == old(o.heapIndex)
    {
      Store(p, y);
      p' := Slot(y, y != t.left);
      SwapWithChild(t, y);
    }

    /** What the links of a node outside the exchange should lead to: only those of the parent of i change. */
    static lemma OtherLinks(ns: seq<Thread>, i: nat, yi: nat, k: nat)
      requires 1 <= i < yi <= |ns| && yi / 2 == i && k >= 1 && k != i && k != yi
      ensures var ns' := ns[i - 1 := ns[yi - 1]][yi - 1 := ns[i - 1]];
              && NodeAt(ns', 2 * k) == (if 2 * k == i then ns[yi - 1] else NodeAt(ns, 2 * k))
              && NodeAt(ns', 2 * k + 1) == (if 2 * k + 1 == i then ns[yi - 1] else NodeAt(ns, 2 * k + 1))
    {
    }

    /** One exchange of the loop of `heap_delete`: t sinks below its child y. */
    method Sink(p: Slot, t: Thread, y: Thread, ghost i: nat, ghost yi: nat,
      ghost ns: seq<Thread>, ghost repr: set<Thread>)
      returns (p': Slot, ghost ns': seq<Thread>)
      requires 1 <= i < yi <= |ns| && yi / 2 == i
      requires t == ns[i - 1] && y == ns[yi - 1]
      requires Wired(ns, 0) && IsSlotOf(p, ns, i)
      requires Within(ns, repr)
      modifies this`root, repr`left, repr`right, repr`heapIndex
      ensures ns' == ns[i - 1 := y][yi - 1 := t]
      ensures Wired(ns', 0) && IsSlotOf(p', ns', yi)
      ensures Within(ns', repr)
    {
      assert NodeWired(ns, i, 0) && NodeWired(ns, yi, 0);
      assert i > 1 ==> NodeWired(ns, i / 2, 0);
      assert NodeWired(ns, 2 * i, 0) && (2 * i + 1 <= |ns| ==> NodeWired(ns, 2 * i + 1, 0));
      p' := Relink(p, t, y, repr);
      ns' := ns[i - 1 := y][yi - 1 := t];
      forall k | 1 <= k <= |ns'| && k != i && k != yi
        ensures NodeWired(ns', k, 0)
      {
        assert old(NodeWired(ns, k, 0));
        assert ns'[k - 1] == ns[k - 1] && ns[k - 1] !in {t, y};
        assert k != i / 2 ==> ns[k - 1] != p.parent;
        OtherLinks(ns, i, yi, k);
      }
      assert NodeWired(ns', i, 0);
      assert NodeWired(ns', yi, 0);
    }

    /** The loop that re-establishes the order below node i. */
    method SinkAll(p0: Slot, ghost i0: nat, ghost ns: seq<Thread>, ghost repr: set<Thread>)
      returns (ghost ns': seq<Thread>)
      requires 1 <= i0 <= |ns| && Wired(ns, 0) && IsSlotOf(p0, ns, i0) && Load(p0) == ns[i0 - 1]
      requires Within(ns, repr)
      modifies this`root, repr`left, repr`right, repr`heapIndex
      ensures |ns'| == |ns| && multiset(ns') == multiset(ns) && Within(ns', repr)
      ensures Wired(ns', 0)
      ensures ViewOf(ns') == old(SiftDown(ViewOf(ns), i0))
    {
      var p := p0;
      var t: Thread := Load(p0);
      ghost var i := i0;
      ns' := ns;
      while true
        invariant 1 <= i <= |ns'| && |ns'| == |ns| && multiset(ns') == multiset(ns) && Within(ns', repr)
        invariant Wired(ns', 0) && IsSlotOf(p, ns', i) && t == ns'[i - 1]
        invariant SiftDown(ViewOf(ns'), i) == old(SiftDown(ViewOf(ns), i0))
        decreases |ns| - i
      {
        assert NodeWired(ns', i, 0);
        ghost var h := ViewOf(ns');
        var y: Thread;
        if t.left == null {
          break;
        } else if t.right == null {
          y := t.left;
        } else if t.left.due < t.right.due {
          y := t.left;
        } else {
          y := t.right;
        }
        ghost var yi := YoungerChild(h, i);
        assert y == ns'[yi - 1];
        if t.due > y.due {
          ghost var before := ns';
          p, ns' := Sink(p, t, y, i, yi, ns', repr);
          ExchangedView(before, ns', h, i, yi);
          i := yi;
        } else {
          break;
        }
      }
    }

    /** The thread is in the heap, at its own number. */
    ghost predicate Holds(thread: Thread)
      reads this, thread
    {
      1 <= thread.heapIndex <= |nodes| && nodes[thread.heapIndex - 1] == thread
    }

    lemma MemberIsHeld(thread: Thread)
      requires Valid() && thread in nodes
      ensures Holds(thread)
    {
      var i :| 0 <= i < |nodes| && nodes[i] == thread;
      assert NodeWired(nodes, i + 1, 0);
    }

    /** The first part of `heap_delete`: the last node is found by the bits of the size and unlinked. */
    method UnlinkLast() returns (t: Thread)
      requires Valid() && size > 0
      modifies this, Repr()`left, Repr()`right
      ensures Valid() && t == old(nodes[|nodes| - 1])
      ensures nodes == old(nodes[..|nodes| - 1])
      ensures t !in nodes
    {
      assert NodeWired(nodes, size, 0);
      assert size > 1 ==> NodeWired(nodes, size / 2, 0);
      var p := FindSlot(size);
      t := Load(p);
      Store(p, null);
      size := size - 1;
      nodes := nodes[..size];
      forall i | 1 <= i <= |nodes|
        ensures NodeWired(nodes, i, 0)
      {
        assert old(NodeWired(nodes, i, 0));
      }
      if t in nodes {
        MemberIsHeld(t);
      }
    }

    /** The node placed by `heap_insert` gets the children of the node it replaces. */
    method Adopt(t: Thread, thread: Thread, ghost pos: nat, ghost ns: seq<Thread>)
      requires 1 <= pos <= |ns| && ns[pos - 1] == t && t.heapIndex == pos
      requires root == NodeAt(ns, 1)
      requires forall i :: 1 <= i <= |ns| && i != pos ==> NodeWired(ns, i, 0)
      requires thread.left == NodeAt(ns, 2 * pos) && thread.right == NodeAt(ns, 2 * pos + 1)
      modifies t`left, t`right
      ensures Wired(ns, 0)
    {
      t.left := thread.left;
      t.right := thread.right;
      forall i | 1 <= i <= |ns|
        ensures NodeWired(ns, i, 0)
      {
        assert i == pos || old(NodeWired(ns, i, 0));
      }
    }

    /** `heap_insert` for the unlinked thread t at the position of node `thread`, which it overwrites. */
    method Overwrite(thread: Thread, t0: Thread, ghost repr: set<Thread>) returns (p: Slot)
      requires Valid() && Holds(thread) && t0 !in nodes
      requires repr == Repr() - {thread} + {t0}
      modifies this, repr`left, repr`right, repr`heapIndex
      ensures |nodes| == old(|nodes|) && size == old(size) && Within(nodes, repr)
      ensures root == NodeAt(nodes, 1)
      ensures thread.left == NodeAt(nodes, 2 * thread.heapIndex) && thread.right == NodeAt(nodes, 2 * thread.heapIndex + 1)
      ensures IsSlotOf(p, nodes, thread.heapIndex)
      ensures Load(p) == nodes[thread.heapIndex - 1] && nodes[thread.heapIndex - 1].heapIndex == thread.heapIndex
      ensures forall i :: 1 <= i <= |nodes| && i != thread.heapIndex ==> NodeWired(nodes, i, 0)
      ensures View() == old(Place(View(), thread.heapIndex, Depth(thread.heapIndex), Timed(t0, t0.due)))
      ensures multiset(nodes) + multiset{thread} == old(multiset(nodes)) + multiset{t0}
    {
      ghost var pos, h, x := thread.heapIndex, View(), Timed(t0, t0.due);
      ghost var ns := nodes[pos - 1 := t0];
      assert NodeWired(nodes, pos, 0);
      t0.heapIndex := thread.heapIndex;
      forall i | 1 <= i <= |ns| && i != pos
        ensures NodeWired(ns, i, pos)
      {
        assert old(NodeWired(nodes, i, 0));
      }
      forall k | 0 <= k < |ns|
        ensures ns[k] in repr
      {
        assert k + 1 == pos || old(NodeWired(nodes, k + 1, 0));
      }
      SameNodes(ViewOf(ns), Put(h, pos, x));
      PlaceIgnoresTarget(h, pos, Depth(pos), x, x);
      ReplaceContents(nodes, pos - 1, t0);
      p, nodes := HeapInsertAt(t0, ns, repr);
    }

    /** The node placed by `heap_insert` gets its children and sinks. */
    method SinkAt(p: Slot, thread: Thread, ghost pos: nat, ghost ns: seq<Thread>, ghost repr: set<Thread>) returns (ghost ns': seq<Thread>)
      requires IsSlotOf(p, ns, pos) && Load(p) == ns[pos - 1] && ns[pos - 1].heapIndex == pos && Within(ns, repr)
      requires root == NodeAt(ns, 1)
      requires forall i :: 1 <= i <= |ns| && i != pos ==> NodeWired(ns, i, 0)
      requires thread.left == NodeAt(ns, 2 * pos) && thread.right == NodeAt(ns, 2 * pos + 1)
      modifies this`root, repr`left, repr`right, repr`heapIndex
      ensures |ns'| == |ns| && multiset(ns') == multiset(ns) && Within(ns', repr)
      ensures Wired(ns', 0)
      ensures ViewOf(ns') == old(SiftDown(ViewOf(ns), pos))
    {
      var t: Thread := Load(p);
      ghost var placed := ViewOf(ns);
      Adopt(t, thread, pos, ns);
      SameNodes(ViewOf(ns), placed);
      assert pos > 1 ==> NodeWired(ns, pos / 2, 0);
      ns' := SinkAll(p, pos, ns, repr);
    }

    /** The second part of `heap_delete`: the unlinked thread t takes the place of node `thread`. */
    method Replace(thread: Thread, t0: Thread)
      requires Valid() && Holds(thread) && t0 !in nodes
      modifies this, t0`left, t0`right, t0`heapIndex, Repr()`left, Repr()`right, Repr()`heapIndex
      ensures Valid() && thread !in nodes
      ensures View() == old(SiftDown(Place(View(), thread.heapIndex, Depth(thread.heapIndex), Timed(t0, t0.due)), thread.heapIndex))
      ensures multiset(nodes) + multiset{thread} == old(multiset(nodes)) + multiset{t0}
    {
      ghost var repr := Repr() - {thread} + {t0};
      var p := Overwrite(thread, t0, repr);
      nodes := SinkAt(p, thread, thread.heapIndex, nodes, repr);
    }

    /** `heap_delete`, called by `_st_del_sleep_q`. */
    method Delete(thread: Thread)
      requires Valid() && Holds(thread)
      modifies this, Repr()`left, Repr()`right, Repr()`heapIndex
      ensures Valid()
      ensures View() == old(HeapDelete(View(), thread.heapIndex))
      ensures multiset(nodes) + multiset{thread} == old(multiset(nodes))
    {
      ghost var h, pos := View(), thread.heapIndex;
      ghost var all := nodes;
      var t := UnlinkLast();
      assert all == nodes + [t];
      SameNodes(View(), h[..|h| - 1]);
      if t != thread {
        Replace(thread, t);
      }
      thread.left := null;
      thread.right := null;
      forall i | 1 <= i <= |nodes|
        ensures NodeWired(nodes, i, 0)
      {
        assert nodes[i - 1] in nodes;
      }
    }
  }
}
