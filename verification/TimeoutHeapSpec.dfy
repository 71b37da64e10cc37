/**
  The timeout heap of `sched.c` as a value: node number i (1-based, the number the source
  keeps in `heap_index`) is element i-1 of a sequence, so that node i has children 2i and 2i+1.
  `HeapInsert` and `HeapDelete` say what `heap_insert` and `heap_delete` do to that sequence,
  comparison by comparison; the pointer version in module TimeoutHeap is proved to do the same.
 */
module TimeoutHeapSpec {

  datatype Timed<T> = Timed(item: T, due: int)

  type Heap<T> = seq<Timed<T>>

  /** Node number i. */
  function At<T>(h: Heap<T>, i: nat): Timed<T>
    requires 1 <= i <= |h|
  {
    h[i - 1]
  }

  function Put<T>(h: Heap<T>, i: nat, x: Timed<T>): (r: Heap<T>)
    requires 1 <= i <= |h|
    ensures |r| == |h| && At(r, i) == x
    ensures forall j :: 1 <= j <= |h| && j != i ==> At(r, j) == At(h, j)
  {
    h[i - 1 := x]
  }

  /** Node i is due no earlier than its parent. */
  ghost predicate AfterParent<T>(h: Heap<T>, i: nat)
    requires 2 <= i <= |h|
  {
    At(h, i / 2).due <= At(h, i).due
  }

  ghost predicate Ordered<T>(h: Heap<T>) {
    forall i :: 2 <= i <= |h| ==> AfterParent(h, i)
  }

  /** The ancestor of node i that is d levels up. */
  function Ancestor(i: nat, d: nat): nat {
    if d == 0 then i else Ancestor(i / 2, d - 1)
  }

  /** The number of levels between the root and node i. */
  function Depth(i: nat): nat
    requires 1 <= i
  {
    if i == 1 then 0 else 1 + Depth(i / 2)
  }

  /**
    The walk of `heap_insert`: going down the root path of `target`, the carried element is
    exchanged with every node that is due later; what is carried at the end goes to `target`.
    `d` is the number of levels still to go down.
   */
  function Place<T>(h: Heap<T>, target: nat, d: nat, x: Timed<T>): (r: Heap<T>)
    requires 1 <= target <= |h| && d <= Depth(target)
    ensures |r| == |h|
    decreases d
  {
    if d == 0 then
      Put(h, target, x)
    else
      AncestorBounds(target, d);
      var index := Ancestor(target, d);
      if x.due < At(h, index).due
      then Place(Put(h, index, x), target, d - 1, At(h, index))
      else Place(h, target, d - 1, x)
  }

  function HeapInsert<T>(h: Heap<T>, x: Timed<T>): (r: Heap<T>)
    ensures |r| == |h| + 1
  {
    Place(h + [x], |h| + 1, Depth(|h| + 1), x)
  }

  /** The child `heap_delete` compares with: the right one unless the left one is due strictly earlier. */
  function YoungerChild<T>(h: Heap<T>, i: nat): (y: nat)
    requires 1 <= i && 2 * i <= |h|
    ensures y <= |h| && (y == 2 * i || y == 2 * i + 1)
  {
    if 2 * i + 1 > |h| then 2 * i
    else if At(h, 2 * i).due < At(h, 2 * i + 1).due then 2 * i
    else 2 * i + 1
  }

  function SiftDown<T>(h: Heap<T>, i: nat): (r: Heap<T>)
    requires 1 <= i <= |h|
    ensures |r| == |h|
    decreases |h| - i
  {
    if 2 * i > |h| then h
    else
      var y := YoungerChild(h, i);
      if At(h, i).due > At(h, y).due
      then SiftDown(Put(Put(h, i, At(h, y)), y, At(h, i)), y)
      else h
  }

  /** Removes node i: the last node takes its place, rising on the root path and then sinking below it. */
  function HeapDelete<T>(h: Heap<T>, i: nat): (r: Heap<T>)
    requires 1 <= i <= |h|
    ensures |r| == |h| - 1
  {
    var rest := h[..|h| - 1];
    if i == |h| then rest
    else SiftDown(Place(rest, i, Depth(i), h[|h| - 1]), i)
  }

  // ---------------------------------------------------------------- positions

  lemma {:induction false} AncestorBounds(i: nat, d: nat)
    requires 1 <= i && d <= Depth(i)
    ensures 1 <= Ancestor(i, d) <= i
    ensures d > 0 ==> Ancestor(i, d) < i
  {
    if d > 0 {
      AncestorBounds(i / 2, d - 1);
    }
  }

  /** Going up d levels and then one more is going up d + 1 levels. */
  lemma {:induction false} AncestorStep(i: nat, d: nat)
    ensures Ancestor(i, d + 1) == Ancestor(i, d) / 2
  {
    if d > 0 {
      AncestorStep(i / 2, d - 1);
    }
  }

  lemma {:induction false} AncestorTop(i: nat)
    requires 1 <= i
    ensures Ancestor(i, Depth(i)) == 1
  {
    if i > 1 {
      AncestorTop(i / 2);
    }
  }

  // ---------------------------------------------------------------- contents

  lemma PutContents<T>(h: Heap<T>, i: nat, x: Timed<T>)
    requires 1 <= i <= |h|
    ensures multiset(Put(h, i, x)) + multiset{At(h, i)} == multiset(h) + multiset{x}
  {
    assert At(h, i) in multiset(h);
  }

  /** `Place` exchanges exactly the old occupant of `target` for x. */
  lemma {:induction false} PlaceContents<T>(h: Heap<T>, target: nat, d: nat, x: Timed<T>)
    requires 1 <= target <= |h| && d <= Depth(target)
    ensures multiset(Place(h, target, d, x)) + multiset{At(h, target)} == multiset(h) + multiset{x}
    decreases d
  {
    if d == 0 {
      PutContents(h, target, x);
    } else {
      AncestorBounds(target, d);
      var index := Ancestor(target, d);
      if x.due < At(h, index).due {
        PutContents(h, index, x);
        PlaceContents(Put(h, index, x), target, d - 1, At(h, index));
      } else {
        PlaceContents(h, target, d - 1, x);
      }
    }
  }

  lemma {:induction false} SiftDownContents<T>(h: Heap<T>, i: nat)
    requires 1 <= i <= |h|
    ensures multiset(SiftDown(h, i)) == multiset(h)
    decreases |h| - i
  {
    if 2 * i <= |h| {
      var y := YoungerChild(h, i);
      if At(h, i).due > At(h, y).due {
        SiftDownContents(Put(Put(h, i, At(h, y)), y, At(h, i)), y);
      }
    }
  }

  /** Insertion adds exactly the given element. */
  lemma InsertContents<T>(h: Heap<T>, x: Timed<T>)
    ensures multiset(HeapInsert(h, x)) == multiset(h) + multiset{x}
  {
    PlaceContents(h + [x], |h| + 1, Depth(|h| + 1), x);
    var r := HeapInsert(h, x);
    assert multiset(r) == multiset(r) + multiset{x} - multiset{x};
  }

  /** Deletion removes exactly the given node. */
  lemma DeleteContents<T>(h: Heap<T>, i: nat)
    requires 1 <= i <= |h|
    ensures multiset(HeapDelete(h, i)) + multiset{At(h, i)} == multiset(h)
  {
    var rest := h[..|h| - 1];
    assert h == rest + [h[|h| - 1]];
    if i < |h| {
      PlaceContents(rest, i, Depth(i), h[|h| - 1]);
      SiftDownContents(Place(rest, i, Depth(i), h[|h| - 1]), i);
    }
  }

  // ---------------------------------------------------------------- order

  /** Node i is due no earlier than its grandparent. */
  ghost predicate AfterGrandparent<T>(h: Heap<T>, i: nat)
    requires 4 <= i <= |h|
  {
    At(h, i / 2 / 2).due <= At(h, i).due
  }

  /** The children of node i are due no earlier than the parent of node i. */
  ghost predicate Bridged<T>(h: Heap<T>, i: nat) {
    i >= 2 ==> forall j :: 4 <= j <= |h| && j / 2 == i ==> AfterGrandparent(h, j)
  }

  /** Every parent-child pair that does not involve node `hole` is in order, and so is the pair around it. */
  ghost predicate OrderedAround<T>(h: Heap<T>, hole: nat) {
    && (forall i :: 2 <= i <= |h| && i != hole && i / 2 != hole ==> AfterParent(h, i))
    && Bridged(h, hole)
  }

  /** Only the pairs below node `top` may be out of order. */
  ghost predicate OrderedAbove<T>(h: Heap<T>, top: nat) {
    && (forall i :: 2 <= i <= |h| && i / 2 != top ==> AfterParent(h, i))
    && Bridged(h, top)
  }

  lemma PutKeepsOrderAround<T>(h: Heap<T>, target: nat, index: nat, x: Timed<T>)
    requires 1 <= index < target <= |h|
    requires OrderedAround(h, target)
    requires x.due <= At(h, index).due
    requires index >= 2 ==> At(h, index / 2).due <= x.due
    ensures OrderedAround(Put(h, index, x), target)
  {
    var h1 := Put(h, index, x);
    forall i | 2 <= i <= |h1| && i != target && i / 2 != target
      ensures AfterParent(h1, i)
    {
      assert AfterParent(h, i);
    }
    forall i | 4 <= i <= |h1| && i / 2 == target
      ensures AfterGrandparent(h1, i)
    {
      assert AfterGrandparent(h, i);
    }
  }

  lemma PutAtTarget<T>(h: Heap<T>, target: nat, x: Timed<T>)
    requires 1 <= target <= |h|
    requires OrderedAround(h, target)
    requires target >= 2 ==> At(h, target / 2).due <= x.due
    ensures OrderedAbove(Put(h, target, x), target)
  {
    var h1 := Put(h, target, x);
    forall i | 2 <= i <= |h1| && i / 2 != target
      ensures AfterParent(h1, i)
    {
      assert i == target || AfterParent(h, i);
    }
    forall i | 4 <= i <= |h1| && i / 2 == target
      ensures AfterGrandparent(h1, i)
    {
      assert AfterGrandparent(h, i);
    }
  }

  /** The element that rises past an ancestor leaves the path in order. */
  lemma {:induction false} PlaceOrder<T>(h: Heap<T>, target: nat, d: nat, x: Timed<T>)
    requires 1 <= target <= |h| && d <= Depth(target)
    requires OrderedAround(h, target)
    requires 2 <= Ancestor(target, d) <= |h| ==> At(h, Ancestor(target, d) / 2).due <= x.due
    ensures OrderedAbove(Place(h, target, d, x), target)
    decreases d
  {
    if d == 0 {
      PutAtTarget(h, target, x);
    } else {
      AncestorBounds(target, d);
      AncestorStep(target, d - 1);
      var index := Ancestor(target, d);
      if x.due < At(h, index).due {
        PutKeepsOrderAround(h, target, index, x);
        PlaceOrder(Put(h, index, x), target, d - 1, At(h, index));
      } else {
        PlaceOrder(h, target, d - 1, x);
      }
    }
  }

  /** Exchanging node i with its younger child, which is due earlier, moves the disorder below the child. */
  lemma SinkOneLevel<T>(h: Heap<T>, i: nat)
    requires 1 <= i && 2 * i <= |h|
    requires OrderedAbove(h, i)
    requires At(h, i).due > At(h, YoungerChild(h, i)).due
    ensures OrderedAbove(Put(Put(h, i, At(h, YoungerChild(h, i))), YoungerChild(h, i), At(h, i)), YoungerChild(h, i))
  {
    var y := YoungerChild(h, i);
    var h1 := Put(Put(h, i, At(h, y)), y, At(h, i));
    forall j | 2 <= j <= |h1| && j / 2 != y
      ensures AfterParent(h1, j)
    {
      assert j / 2 == i || AfterParent(h, j);
      if j == i {
        assert AfterGrandparent(h, y);
      }
    }
    forall j | 4 <= j <= |h1| && j / 2 == y
      ensures AfterGrandparent(h1, j)
    {
      assert AfterParent(h, j);
    }
  }

  lemma {:induction false} SiftDownOrder<T>(h: Heap<T>, i: nat)
    requires 1 <= i <= |h|
    requires OrderedAbove(h, i)
    ensures Ordered(SiftDown(h, i))
    decreases |h| - i
  {
    if 2 * i > |h| {
    } else if At(h, i).due > At(h, YoungerChild(h, i)).due {
      SinkOneLevel(h, i);
      var y := YoungerChild(h, i);
      SiftDownOrder(Put(Put(h, i, At(h, y)), y, At(h, i)), y);
    } else {
      assert forall j :: 2 <= j <= |h| && j / 2 == i ==> AfterParent(h, j);
    }
  }

  lemma InsertOrder<T>(h: Heap<T>, x: Timed<T>)
    requires Ordered(h)
    ensures Ordered(HeapInsert(h, x))
  {
    var h1 := h + [x];
    forall i | 2 <= i <= |h1| && i != |h1|
      ensures AfterParent(h1, i)
    {
      assert AfterParent(h, i);
    }
    AncestorTop(|h1|);
    PlaceOrder(h1, |h1|, Depth(|h1|), x);
  }

  /** The order is restored both when the displaced last node must rise and when it must sink. */
  lemma DeleteOrder<T>(h: Heap<T>, i: nat)
    requires 1 <= i <= |h|
    requires Ordered(h)
    ensures Ordered(HeapDelete(h, i))
  {
    var rest := h[..|h| - 1];
    forall j | 2 <= j <= |rest|
      ensures AfterParent(rest, j)
      ensures j / 2 == i && i >= 2 ==> AfterGrandparent(rest, j)
    {
      assert AfterParent(h, j);
      assert j / 2 == i && i >= 2 ==> AfterParent(h, j / 2);
    }
    if i < |h| {
      AncestorTop(i);
      PlaceOrder(rest, i, Depth(i), h[|h| - 1]);
      SiftDownOrder(Place(rest, i, Depth(i), h[|h| - 1]), i);
    }
  }

  /** The root is due no later than any node. */
  lemma {:induction false} RootIsEarliest<T>(h: Heap<T>, i: nat)
    requires Ordered(h) && 1 <= i <= |h|
    ensures At(h, 1).due <= At(h, i).due
    decreases i
  {
    if i > 1 {
      assert AfterParent(h, i);
      RootIsEarliest(h, i / 2);
    }
  }
}
