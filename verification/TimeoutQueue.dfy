/**
  The timeout heap as the scheduler uses it: the heap of linked thread records, seen as a heap of
  thread numbers.
 */
module TimeoutQueue {
  import opened TimeoutHeapSpec
  import opened Sched
  import opened TimeoutHeap

  type Node = TimeoutHeap.Thread

  // ---------------------------------------------------------------- heaps of records and heaps of numbers

  function Id(x: Timed<Node>): Timed<Tid> {
    Timed(x.item.id, x.due)
  }

  function Ids(h: Heap<Node>): (r: Heap<Tid>)
    ensures |r| == |h|
    ensures forall i :: 1 <= i <= |h| ==> At(r, i) == Id(At(h, i))
  {
    seq(|h|, i requires 0 <= i < |h| => Id(h[i]))
  }

  lemma IdsPut(h: Heap<Node>, i: nat, x: Timed<Node>)
    requires 1 <= i <= |h|
    ensures Ids(Put(h, i, x)) == Put(Ids(h), i, Id(x))
  {
    SameNodes(Ids(Put(h, i, x)), Put(Ids(h), i, Id(x)));
  }

  lemma {:induction false} IdsPlace(h: Heap<Node>, target: nat, d: nat, x: Timed<Node>)
    requires 1 <= target <= |h| && d <= Depth(target)
    ensures Ids(Place(h, target, d, x)) == Place(Ids(h), target, d, Id(x))
    decreases d
  {
    if d == 0 {
      IdsPut(h, target, x);
    } else {
      AncestorBounds(target, d);
      var index := Ancestor(target, d);
      IdsPut(h, index, x);
      if x.due < At(h, index).due {
        IdsPlace(Put(h, index, x), target, d - 1, At(h, index));
      } else {
        IdsPlace(h, target, d - 1, x);
      }
    }
  }

  lemma {:induction false} IdsSiftDown(h: Heap<Node>, i: nat)
    requires 1 <= i <= |h|
    ensures Ids(SiftDown(h, i)) == SiftDown(Ids(h), i)
    decreases |h| - i
  {
    if 2 * i <= |h| {
      var y := YoungerChild(h, i);
      assert y == YoungerChild(Ids(h), i);
      IdsPut(h, i, At(h, y));
      IdsPut(Put(h, i, At(h, y)), y, At(h, i));
      IdsSiftDown(Put(Put(h, i, At(h, y)), y, At(h, i)), y);
    }
  }

  lemma IdsInsert(h: Heap<Node>, x: Timed<Node>)
    ensures Ids(HeapInsert(h, x)) == HeapInsert(Ids(h), Id(x))
  {
    assert Ids(h + [x]) == Ids(h) + [Id(x)];
    IdsPlace(h + [x], |h| + 1, Depth(|h| + 1), x);
  }

  lemma IdsDelete(h: Heap<Node>, i: nat)
    requires 1 <= i <= |h|
    ensures Ids(HeapDelete(h, i)) == HeapDelete(Ids(h), i)
  {
    var rest := h[..|h| - 1];
    assert Ids(rest) == Ids(h)[..|h| - 1];
    if i < |h| {
      IdsPlace(rest, i, Depth(i), h[|h| - 1]);
      IdsSiftDown(Place(rest, i, Depth(i), h[|h| - 1]), i);
    }
  }

  /** A number that occurs once is found where it is. */
  lemma {:induction false} PositionOfOnly(h: Heap<Tid>, i: nat)
    requires 1 <= i <= |h| && forall j :: 1 <= j <= |h| && j != i ==> At(h, j).item != At(h, i).item
    ensures Position(h, At(h, i).item) == i
    decreases |h|
  {
    if i < |h| {
      var front := h[..|h| - 1];
      assert forall j :: 1 <= j <= |front| ==> At(front, j) == At(h, j);
      assert At(h, |h|).item != At(h, i).item;
      PositionOfOnly(front, i);
    }
  }

  // ---------------------------------------------------------------- the queue of the scheduler

  class Timeouts {
    const heap: SleepQueue
    /** The heap part of the record of every thread. */
    var node: map<Tid, Node>

    ghost predicate Valid()
      reads this, heap, heap.nodes
    {
      && heap.Valid()
      && (forall t :: t in node ==> node[t].id == t)
      && (forall n :: n in heap.nodes ==> n.id in node && node[n.id] == n)
    }

    ghost function View(): Heap<Tid>
      reads this, heap, heap.nodes
    {
      Ids(heap.View())
    }

    constructor ()
      ensures Valid() && View() == [] && node == map[] && fresh(heap)
    {
      heap := new SleepQueue();
      node := map[];
      new;
      assert Ids([]) == [];
    }

    /** The heap part of the record of a new thread. */
    method Register(t: Tid)
      requires Valid() && t !in node
      modifies this`node
      ensures Valid() && View() == old(View())
      ensures node.Keys == old(node.Keys) + {t} && fresh(node[t])
      ensures forall x :: x in old(node) ==> node[x] == old(node[x])
    {
      var n := new TimeoutHeap.Thread(t);
      node := node[t := n];
    }

    /** Where a thread is in the heap: at its own number, or nowhere. */
    lemma NodePosition(t: Tid)
      requires Valid() && t in node
      ensures node[t] in heap.nodes ==> heap.Holds(node[t]) && Position(View(), t) == node[t].heapIndex
      ensures node[t] !in heap.nodes ==> Position(View(), t) == 0
    {
      var v := View();
      if node[t] in heap.nodes {
        var i := node[t].heapIndex;
        heap.MemberIsHeld(node[t]);
        forall j | 1 <= j <= |v| && j != i
          ensures At(v, j).item != At(v, i).item
        {
          assert heap.NodeWired(heap.nodes, i, 0) && heap.NodeWired(heap.nodes, j, 0);
          assert heap.nodes[j - 1] in heap.nodes;
        }
        PositionOfOnly(v, i);
      } else if Position(v, t) > 0 {
        assert heap.nodes[Position(v, t) - 1] in heap.nodes;
      }
    }

    method Insert(t: Tid, due: int)
      requires Valid() && t in node && Position(View(), t) == 0
      modifies heap, node.Values
      ensures Valid() && View() == HeapInsert(old(View()), Timed(t, due))
    {
      NodePosition(t);
      IdsInsert(heap.View(), Timed(node[t], due));
      heap.Add(node[t], due);
      assert forall n :: n in heap.nodes ==> n in multiset(heap.nodes);
    }

    method Remove(t: Tid)
      requires Valid() && t in node && Position(View(), t) > 0
      modifies heap, node.Values
      ensures Valid() && View() == HeapDelete(old(View()), Position(old(View()), t))
    {
      NodePosition(t);
      IdsDelete(heap.View(), node[t].heapIndex);
      heap.Delete(node[t]);
      forall n | n in heap.nodes
        ensures n in old(heap.nodes)
      {
        assert n in multiset(heap.nodes);
        assert n in old(multiset(heap.nodes));
      }
    }

    /** The thread that is due first, if any. */
    method First() returns (empty: bool, t: Tid, due: int)
      requires Valid()
      ensures empty <==> View() == []
      ensures !empty ==> View()[0] == Timed(t, due) && t in node && Position(View(), t) == 1
    {
      if heap.root == null {
        return true, 0, 0;
      }
      assert heap.root == heap.nodes[0] && heap.NodeWired(heap.nodes, 1, 0);
      assert At(View(), 1) == Id(At(heap.View(), 1));
      empty, t, due := false, heap.root.id, heap.root.due;
      NodePosition(t);
    }
  }
}
