/**
  What the two passes of `json_parse_ex` do with the values they meet: the first pass allocates a
  node for each and counts; the second pass takes the nodes in the same order, allocates exactly
  the counted space and fills it.
 */
module JsonBuild {
  import opened Wrappers
  import opened JsonScan
  import opened JsonParse

  // ---------------------------------------------------------------- first pass

  datatype NodeKind = Container(kind: Kind) | Leaf

  /**
    A node after the first pass: `length` counts the entries of a container or the bytes of a
    string, `names` the bytes of all keys of an object with their terminators.
   */
  datatype Node = Node(kind: NodeKind, length: nat, names: nat, number: Option<int>)

  /** The nodes in the order of their allocation, and the open ones from the root to the innermost. */
  datatype Counts = Counts(nodes: seq<Node>, stack: seq<nat>)

  const NO_COUNTS := Counts([], [])

  predicate ValidCounts(c: Counts) {
    && (forall j :: 0 <= j < |c.stack| ==> c.stack[j] < |c.nodes|)
    && (forall i, j :: 0 <= i < j < |c.stack| ==> c.stack[i] != c.stack[j])
  }

  /** A complete value adds an entry to the container around it. */
  function CountEntry(c: Counts): (r: Counts)
    requires ValidCounts(c)
    ensures ValidCounts(r) && |r.nodes| == |c.nodes| && r.stack == c.stack
  {
    if c.stack == [] then c
    else
      var p := c.stack[|c.stack| - 1];
      c.(nodes := c.nodes[p := c.nodes[p].(length := c.nodes[p].length + 1)])
  }

  function Allocate(c: Counts, n: Node): (r: Counts)
    requires ValidCounts(c)
    ensures ValidCounts(r)
  {
    c.(nodes := c.nodes + [n])
  }

  function Count(c: Counts, e: Event): (r: Counts)
    requires ValidCounts(c)
    ensures ValidCounts(r)
  {
    match e
    case Open(k) =>
      var c1 := Allocate(c, Node(Container(k), 0, 0, None));
      c1.(stack := c.stack + [|c.nodes|])
    case Close => if c.stack == [] then c else CountEntry(c.(stack := c.stack[..|c.stack| - 1]))
    case Text(n, _) => CountEntry(Allocate(c, Node(Leaf, n, 0, None)))
    case Key(n, _) =>
      if c.stack == [] then c
      else
        var p := c.stack[|c.stack| - 1];
        c.(nodes := c.nodes[p := c.nodes[p].(names := c.nodes[p].names + n + 1)])
    case Number(v) => CountEntry(Allocate(c, Node(Leaf, 0, 0, v)))
    case _ => CountEntry(Allocate(c, Node(Leaf, 0, 0, None)))
  }

  function CountAll(c: Counts, es: seq<Event>): (r: Counts)
    requires ValidCounts(c)
    ensures ValidCounts(r)
    decreases |es|
  {
    if es == [] then c else CountAll(Count(c, es[0]), es[1..])
  }

  /** Later counting only adds nodes, and only raises the counts of nodes that are open. */
  ghost predicate Grown(c: Counts, r: Counts) {
    && |c.nodes| <= |r.nodes|
    && (forall i :: 0 <= i < |c.nodes| ==>
          && r.nodes[i].kind == c.nodes[i].kind && r.nodes[i].number == c.nodes[i].number
          && r.nodes[i].length >= c.nodes[i].length && r.nodes[i].names >= c.nodes[i].names
          && (i !in c.stack ==> r.nodes[i] == c.nodes[i]))
    && (forall i :: i in r.stack ==> i in c.stack || i >= |c.nodes|)
  }

  lemma CountGrows(c: Counts, e: Event)
    requires ValidCounts(c)
    ensures Grown(c, Count(c, e))
  {
    if c.stack != [] {
      assert c.stack[|c.stack| - 1] in c.stack;
      if e.Close? && |c.stack| > 1 {
        assert c.stack[..|c.stack| - 1][|c.stack| - 2] in c.stack;
      }
    }
  }

  lemma {:induction false} CountAllGrows(c: Counts, es: seq<Event>)
    requires ValidCounts(c)
    ensures Grown(c, CountAll(c, es))
    decreases |es|
  {
    if es != [] {
      CountGrows(c, es[0]);
      CountAllGrows(Count(c, es[0]), es[1..]);
    }
  }

  // ---------------------------------------------------------------- second pass

  /** A value of the tree; a double is not represented further. */
  datatype Json =
    | JNull
    | JBool(flag: bool)
    | JInteger(value: int)
    | JDouble
    | JString(text: string)
    | JArray(elems: seq<Json>)
    | JObject(members: seq<Member>)

  datatype Member = Member(key: string, value: Json)

  /** An open container: its node, the keys that were stored and the values that were attached. */
  datatype Frame = Frame(node: nat, kind: Kind, keys: seq<string>, kids: seq<Json>)

  /** `next` is the node that the next value takes. */
  datatype Fill = Fill(next: nat, stack: seq<Frame>, root: Option<Json>)

  const NO_FILL := Fill(0, [], None)

  function Members(keys: seq<string>, kids: seq<Json>): seq<Member> {
    if keys == [] || kids == [] then [] else [Member(keys[0], kids[0])] + Members(keys[1..], kids[1..])
  }

  function Finished(f: Frame): Json {
    match f.kind
    case Arr => JArray(f.kids)
    case Obj => JObject(Members(f.keys, f.kids))
  }

  /** A complete value becomes an entry of the container around it, or the root. */
  function Attach(f: Fill, v: Json): Fill {
    if f.stack == [] then f.(root := Some(v))
    else
      var n := |f.stack| - 1;
      f.(stack := f.stack[..n] + [f.stack[n].(kids := f.stack[n].kids + [v])])
  }

  function NumberOf(v: Option<int>): Json {
    match v
    case None => JDouble
    case Some(i) => JInteger(i)
  }

  /** One step of the second pass; `number` is the number in the node that is taken. */
  function Put(f: Fill, e: Event, number: Option<int>): Fill {
    var n := |f.stack| - 1;
    match e
    case Open(k) => Fill(f.next + 1, f.stack + [Frame(f.next, k, [], [])], f.root)
    case Close => if f.stack == [] then f else Attach(f.(stack := f.stack[..n]), Finished(f.stack[n]))
    case Text(_, bytes) => Attach(f.(next := f.next + 1), JString(bytes))
    case Key(_, bytes) =>
      if f.stack == [] then f
      else f.(stack := f.stack[..n] + [f.stack[n].(keys := f.stack[n].keys + [bytes])])
    case Number(_) => Attach(f.(next := f.next + 1), NumberOf(number))
    case Bool(b) => Attach(f.(next := f.next + 1), JBool(b))
    case Null => Attach(f.(next := f.next + 1), JNull)
  }

  function NumberAt(nodes: seq<Node>, i: nat): Option<int> {
    if i < |nodes| then nodes[i].number else None
  }

  function FillAll(nodes: seq<Node>, f: Fill, es: seq<Event>): Fill
    decreases |es|
  {
    if es == [] then f else FillAll(nodes, Put(f, es[0], NumberAt(nodes, f.next)), es[1..])
  }

  /** The space that stored keys take in the memory of their object. */
  function NameBytes(keys: seq<string>): nat {
    if keys == [] then 0 else NameBytes(keys[..|keys| - 1]) + |keys[|keys| - 1]| + 1
  }

  /** There is room for one more entry in the container around a value. */
  predicate RoomForEntry(nodes: seq<Node>, stack: seq<Frame>) {
    stack == [] || (var f := stack[|stack| - 1]; f.node < |nodes| && |f.kids| < nodes[f.node].length)
  }

  /** The step takes an existing node of its kind and writes only to space that was counted; what is closed or stored whole is exactly full. */
  predicate Fits(nodes: seq<Node>, f: Fill, e: Event) {
    var n := |f.stack| - 1;
    match e
    case Open(k) => f.next < |nodes| && nodes[f.next].kind == Container(k)
    case Close =>
      && f.stack != []
      && (var top := f.stack[n];
          && top.node < |nodes| && |top.kids| == nodes[top.node].length
          && NameBytes(top.keys) == nodes[top.node].names && (top.kind == Obj ==> |top.keys| == |top.kids|))
      && RoomForEntry(nodes, f.stack[..n])
    case Key(_, bytes) =>
      && f.stack != []
      && (var top := f.stack[n];
          && top.node < |nodes| && |top.keys| == |top.kids| < nodes[top.node].length
          && NameBytes(top.keys) + |bytes| + 1 <= nodes[top.node].names)
    case Text(_, bytes) =>
      f.next < |nodes| && nodes[f.next].kind == Leaf && |bytes| == nodes[f.next].length && RoomForEntry(nodes, f.stack)
    case _ => f.next < |nodes| && nodes[f.next].kind == Leaf && RoomForEntry(nodes, f.stack)
  }

  /** Every step fits, and at the end the root is there and every node has been taken. */
  predicate FillsExactly(nodes: seq<Node>, f: Fill, es: seq<Event>)
    decreases |es|
  {
    if es == [] then f.stack == [] && f.root.Some? && f.next == |nodes|
    else Fits(nodes, f, es[0]) && FillsExactly(nodes, Put(f, es[0], NumberAt(nodes, f.next)), es[1..])
  }

  // ---------------------------------------------------------------- the second pass fills what the first one counted

  /** The open containers of both passes: the same nodes, as many entries and name bytes as were counted. */
  ghost predicate SameFrames(c: Counts, f: Fill, kinds: seq<Kind>, pending: bool) {
    && |c.stack| == |f.stack| == |kinds| && |c.nodes| == f.next
    && forall j :: 0 <= j < |f.stack| ==>
         && f.stack[j].node == c.stack[j] < |c.nodes|
         && f.stack[j].kind == kinds[j]
         && FrameCounted(c.nodes[c.stack[j]], f.stack[j], j < |f.stack| - 1 || pending)
  }

  /** A frame holds what its node has counted; `open` tells that an entry of an object has its key only. */
  predicate FrameCounted(n: Node, f: Frame, open: bool) {
    && n.kind == Container(f.kind) && n.length == |f.kids| && n.names == NameBytes(f.keys)
    && (f.kind == Arr ==> f.keys == [])
    && (f.kind == Obj ==> |f.keys| == |f.kids| + if open then 1 else 0)
  }

  lemma NameBytesMore(keys: seq<string>, key: string)
    ensures NameBytes(keys + [key]) == NameBytes(keys) + |key| + 1
  {
    assert (keys + [key])[..|keys|] == keys;
  }

  /** The flags after an event, as `Proper` follows them. */
  function StackAfter(e: Event, kinds: seq<Kind>): seq<Kind> {
    match e
    case Open(k) => kinds + [k]
    case Close => if kinds == [] then [] else kinds[..|kinds| - 1]
    case _ => kinds
  }

  function PendingAfter(e: Event): bool {
    e.Key?
  }

  predicate AllowedEvent(e: Event, kinds: seq<Kind>, pending: bool) {
    match e
    case Key(_, _) => TopIs(kinds, Obj) && !pending
    case Close => kinds != [] && !pending
    case _ => MayHaveValue(kinds, pending)
  }

  /** A value has been attached in both passes. */
  lemma EntryCounted(c: Counts, f: Fill, kinds: seq<Kind>, v: Json)
    requires ValidCounts(c) && SameFrames(c, f, kinds, TopIs(kinds, Obj))
    ensures SameFrames(CountEntry(c), Attach(f, v), kinds, false)
  {
  }

  lemma LeafCounted(c: Counts, f: Fill, kinds: seq<Kind>, pending: bool, n: Node)
    requires ValidCounts(c) && SameFrames(c, f, kinds, pending)
    ensures SameFrames(Allocate(c, n), f.(next := f.next + 1), kinds, pending)
  {
  }

  lemma OpenCounted(c: Counts, f: Fill, kinds: seq<Kind>, pending: bool, k: Kind, number: Option<int>)
    requires ValidCounts(c) && SameFrames(c, f, kinds, pending) && MayHaveValue(kinds, pending)
    requires pending ==> TopIs(kinds, Obj)
    ensures SameFrames(Count(c, Open(k)), Put(f, Open(k), number), kinds + [k], false)
  {
  }

  lemma KeyCounted(c: Counts, f: Fill, kinds: seq<Kind>, e1: Event, e2: Event, number: Option<int>)
    requires ValidCounts(c) && SameFrames(c, f, kinds, false) && TopIs(kinds, Obj)
    requires e1.Key? && SameEvent(e1, e2)
    ensures SameFrames(Count(c, e1), Put(f, e2, number), kinds, true)
  {
    NameBytesMore(f.stack[|f.stack| - 1].keys, e2.bytes);
  }

  lemma PoppedFrames(c: Counts, f: Fill, kinds: seq<Kind>, c1: Counts, f1: Fill)
    requires SameFrames(c, f, kinds, false) && kinds != []
    requires c1 == c.(stack := c.stack[..|kinds| - 1]) && f1 == f.(stack := f.stack[..|kinds| - 1])
    ensures SameFrames(c1, f1, kinds[..|kinds| - 1], TopIs(kinds[..|kinds| - 1], Obj))
  {
    var n := |kinds| - 1;
    forall j | 0 <= j < n
      ensures f1.stack[j].node == c1.stack[j] < |c1.nodes| && f1.stack[j].kind == kinds[..n][j]
      ensures FrameCounted(c1.nodes[c1.stack[j]], f1.stack[j], j < n - 1 || TopIs(kinds[..n], Obj))
    {
      assert f1.stack[j] == f.stack[j] && c1.stack[j] == c.stack[j];
      assert FrameCounted(c.nodes[c.stack[j]], f.stack[j], true);
    }
  }

  lemma CloseCounted(c: Counts, f: Fill, kinds: seq<Kind>, number: Option<int>)
    requires ValidCounts(c) && SameFrames(c, f, kinds, false) && kinds != []
    ensures SameFrames(Count(c, Close), Put(f, Close, number), kinds[..|kinds| - 1], false)
  {
    var n := |kinds| - 1;
    var c1 := c.(stack := c.stack[..n]);
    var f1 := f.(stack := f.stack[..n]);
    PoppedFrames(c, f, kinds, c1, f1);
    assert Count(c, Close) == CountEntry(c1) && Put(f, Close, number) == Attach(f1, Finished(f.stack[n]));
    EntryCounted(c1, f1, kinds[..n], Finished(f.stack[n]));
  }

  /** The two passes stay in step over one event. */
  lemma StaysInStep(c: Counts, f: Fill, kinds: seq<Kind>, pending: bool, e1: Event, e2: Event, number: Option<int>)
    requires ValidCounts(c) && SameFrames(c, f, kinds, pending) && SameEvent(e1, e2)
    requires AllowedEvent(e1, kinds, pending) && (pending ==> TopIs(kinds, Obj))
    ensures SameFrames(Count(c, e1), Put(f, e2, number), StackAfter(e1, kinds), PendingAfter(e1))
  {
    match e1
    case Key(_, _) => KeyCounted(c, f, kinds, e1, e2, number);
    case Close => CloseCounted(c, f, kinds, number);
    case Open(k) => OpenCounted(c, f, kinds, pending, k, number);
    case _ => LeafStaysInStep(c, f, kinds, pending, e1, e2, number);
  }

  predicate IsLeaf(e: Event) {
    e.Text? || e.Number? || e.Bool? || e.Null?
  }

  lemma LeafStaysInStep(c: Counts, f: Fill, kinds: seq<Kind>, pending: bool, e1: Event, e2: Event, number: Option<int>)
    requires ValidCounts(c) && SameFrames(c, f, kinds, pending) && SameEvent(e1, e2) && IsLeaf(e1)
    requires MayHaveValue(kinds, pending) && (pending ==> TopIs(kinds, Obj))
    ensures SameFrames(Count(c, e1), Put(f, e2, number), kinds, false)
  {
    var n := Node(Leaf, if e1.Text? then e1.size else 0, 0, if e1.Number? then e1.value else None);
    var v := if e1.Text? then JString(e2.bytes) else if e1.Number? then NumberOf(number) else if e1.Bool? then JBool(e1.flag) else JNull;
    LeafCounted(c, f, kinds, pending, n);
    PendingIsFlag(Allocate(c, n), f.(next := f.next + 1), kinds, pending);
    EntryCounted(Allocate(c, n), f.(next := f.next + 1), kinds, v);
  }

  lemma PendingIsFlag(c: Counts, f: Fill, kinds: seq<Kind>, pending: bool)
    requires SameFrames(c, f, kinds, pending) && MayHaveValue(kinds, pending) && (pending ==> TopIs(kinds, Obj))
    ensures SameFrames(c, f, kinds, TopIs(kinds, Obj))
  {
  }

  /** The step fits into the nodes as they are when the first pass is over. */
  lemma StepFits(c: Counts, f: Fill, kinds: seq<Kind>, pending: bool, e1: Event, e2: Event, nodes: seq<Node>)
    requires ValidCounts(c) && SameFrames(c, f, kinds, pending) && SameEvent(e1, e2)
    requires AllowedEvent(e1, kinds, pending) && (pending ==> TopIs(kinds, Obj))
    requires |Count(c, e1).nodes| <= |nodes|
    requires forall i :: 0 <= i < |Count(c, e1).nodes| ==> GrownNode(Count(c, e1), nodes, i)
    requires e1.Key? ==> nodes[c.stack[|c.stack| - 1]].length > c.nodes[c.stack[|c.stack| - 1]].length
    ensures Fits(nodes, f, e2)
    ensures e1.Number? ==> NumberAt(nodes, f.next) == e1.value
  {
    match e1
    case Key(_, _) => KeyFits(c, f, kinds, e1, e2, nodes);
    case Close => CloseFits(c, f, kinds, nodes);
    case Open(k) => OpenFits(c, f, kinds, pending, k, nodes);
    case _ => LeafFits(c, f, kinds, pending, e1, e2, nodes);
  }

  lemma KeyFits(c: Counts, f: Fill, kinds: seq<Kind>, e1: Event, e2: Event, nodes: seq<Node>)
    requires ValidCounts(c) && SameFrames(c, f, kinds, false) && SameEvent(e1, e2) && e1.Key? && TopIs(kinds, Obj)
    requires |Count(c, e1).nodes| <= |nodes|
    requires forall i :: 0 <= i < |Count(c, e1).nodes| ==> GrownNode(Count(c, e1), nodes, i)
    requires nodes[c.stack[|c.stack| - 1]].length > c.nodes[c.stack[|c.stack| - 1]].length
    ensures Fits(nodes, f, e2)
  {
    assert GrownNode(Count(c, e1), nodes, c.stack[|c.stack| - 1]);
    NameBytesMore(f.stack[|f.stack| - 1].keys, e2.bytes);
  }

  lemma OpenFits(c: Counts, f: Fill, kinds: seq<Kind>, pending: bool, k: Kind, nodes: seq<Node>)
    requires ValidCounts(c) && SameFrames(c, f, kinds, pending)
    requires |Count(c, Open(k)).nodes| <= |nodes|
    requires forall i :: 0 <= i < |Count(c, Open(k)).nodes| ==> GrownNode(Count(c, Open(k)), nodes, i)
    ensures Fits(nodes, f, Open(k))
  {
    assert GrownNode(Count(c, Open(k)), nodes, |c.nodes|);
  }

  predicate GrownNode(c: Counts, nodes: seq<Node>, i: nat)
    requires i < |c.nodes| <= |nodes|
  {
    && nodes[i].kind == c.nodes[i].kind && nodes[i].number == c.nodes[i].number
    && nodes[i].length >= c.nodes[i].length && nodes[i].names >= c.nodes[i].names
    && (i !in c.stack ==> nodes[i] == c.nodes[i])
  }

  lemma CloseFits(c: Counts, f: Fill, kinds: seq<Kind>, nodes: seq<Node>)
    requires ValidCounts(c) && SameFrames(c, f, kinds, false) && kinds != []
    requires |Count(c, Close).nodes| <= |nodes|
    requires forall i :: 0 <= i < |Count(c, Close).nodes| ==> GrownNode(Count(c, Close), nodes, i)
    ensures Fits(nodes, f, Close)
  {
    var n := |kinds| - 1;
    var top := c.stack[n];
    var c' := Count(c, Close);
    assert top !in c.stack[..n];
    assert GrownNode(c', nodes, top);
    if n > 0 {
      assert GrownNode(c', nodes, c.stack[n - 1]);
      assert c.stack[..n][n - 1] == c.stack[n - 1] && f.stack[..n][n - 1] == f.stack[n - 1];
    }
  }

  lemma LeafFits(c: Counts, f: Fill, kinds: seq<Kind>, pending: bool, e1: Event, e2: Event, nodes: seq<Node>)
    requires ValidCounts(c) && SameFrames(c, f, kinds, pending) && SameEvent(e1, e2) && IsLeaf(e1)
    requires |Count(c, e1).nodes| <= |nodes|
    requires forall i :: 0 <= i < |Count(c, e1).nodes| ==> GrownNode(Count(c, e1), nodes, i)
    ensures Fits(nodes, f, e2)
    ensures e1.Number? ==> NumberAt(nodes, f.next) == e1.value
  {
    var c' := Count(c, e1);
    assert |c'.nodes| == |c.nodes| + 1;
    assert GrownNode(c', nodes, |c.nodes|);
    assert |c.nodes| !in c.stack;
    if c.stack != [] {
      assert GrownNode(c', nodes, c.stack[|c.stack| - 1]);
    }
  }

  lemma GrownNodes(c: Counts, es: seq<Event>)
    requires ValidCounts(c)
    ensures |c.nodes| <= |CountAll(c, es).nodes|
    ensures forall i :: 0 <= i < |c.nodes| ==> GrownNode(c, CountAll(c, es).nodes, i)
  {
    CountAllGrows(c, es);
  }

  /** An entry of the container at depth d has been begun and is not complete. */
  predicate Owed(kinds: seq<Kind>, pending: bool, d: nat) {
    d < |kinds| && (d < |kinds| - 1 || (pending && kinds[d] == Obj))
  }

  /** What one event does to the count of a container to which an entry is owed: it is counted, or still owed. */
  lemma OwedStep(c: Counts, e: Event, kinds: seq<Kind>, pending: bool, d: nat)
    requires ValidCounts(c) && |c.stack| == |kinds| && Owed(kinds, pending, d) && AllowedEvent(e, kinds, pending)
    ensures var c' := Count(c, e); var p := c.stack[d];
            || c'.nodes[p].length > c.nodes[p].length
            || (Owed(StackAfter(e, kinds), PendingAfter(e), d) && c'.stack[d] == p && c'.nodes[p].length == c.nodes[p].length)
    ensures |Count(c, e).stack| == |StackAfter(e, kinds)|
  {
    match e
    case Close =>
      if d == |kinds| - 2 {
        assert c.stack[..|c.stack| - 1][d] == c.stack[d];
      }
    case _ =>
  }

  /** An entry that has been begun is counted in the end. */
  lemma {:induction false} OwedIsCounted(c: Counts, es: seq<Event>, kinds: seq<Kind>, pending: bool, d: nat)
    requires ValidCounts(c) && |c.stack| == |kinds| && Owed(kinds, pending, d) && Proper(es, kinds, pending, false)
    ensures |c.nodes| <= |CountAll(c, es).nodes|
    ensures CountAll(c, es).nodes[c.stack[d]].length > c.nodes[c.stack[d]].length
    decreases |es|
  {
    CountAllGrows(c, es);
    ProperFirst(es, kinds, pending);
    var c' := Count(c, es[0]);
    OwedStep(c, es[0], kinds, pending, d);
    CountGrows(c, es[0]);
    CountAllGrows(c', es[1..]);
    if c'.nodes[c.stack[d]].length == c.nodes[c.stack[d]].length {
      OwedIsCounted(c', es[1..], StackAfter(es[0], kinds), PendingAfter(es[0]), d);
    }
  }

  lemma ProperFirst(es: seq<Event>, kinds: seq<Kind>, pending: bool)
    requires Proper(es, kinds, pending, false)
    ensures es != [] && AllowedEvent(es[0], kinds, pending)
    ensures Proper(es[1..], StackAfter(es[0], kinds), PendingAfter(es[0]), DoneAfter(es[0], kinds))
    ensures PendingAfter(es[0]) ==> TopIs(StackAfter(es[0], kinds), Obj)
  {
  }

  function DoneAfter(e: Event, kinds: seq<Kind>): bool {
    match e
    case Close => |kinds| == 1
    case Open(_) => false
    case Key(_, _) => false
    case _ => kinds == []
  }

  /** The root is set when the outermost value is complete. */
  lemma RootWhenDone(f: Fill, e: Event, kinds: seq<Kind>, number: Option<int>)
    requires |f.stack| == |kinds| && DoneAfter(e, kinds)
    ensures Put(f, e, number).root.Some?
  {
  }

  /** The events with the number from the first pass and the bytes from the second. */
  function Merged(e1: Event, e2: Event): Event {
    if e1.Number? then e1 else e2
  }

  function MergedAll(es1: seq<Event>, es2: seq<Event>): seq<Event>
    requires |es1| == |es2|
  {
    if es1 == [] then [] else [Merged(es1[0], es2[0])] + MergedAll(es1[1..], es2[1..])
  }

  /** The tree that events describe when each number comes with its value. */
  function FillDirect(f: Fill, es: seq<Event>): Fill
    decreases |es|
  {
    if es == [] then f else FillDirect(Put(f, es[0], if es[0].Number? then es[0].value else None), es[1..])
  }

  lemma PutMerged(f: Fill, e1: Event, e2: Event, number: Option<int>)
    requires SameEvent(e1, e2) && (e1.Number? ==> number == e1.value)
    ensures Put(f, e2, number) == Put(f, Merged(e1, e2), if e1.Number? then e1.value else None)
  {
  }

  lemma MergedFirst(f: Fill, e1: Event, e2: Event, es1: seq<Event>, es2: seq<Event>, number: Option<int>)
    requires |es1| == |es2| && SameEvent(e1, e2) && (e1.Number? ==> number == e1.value)
    ensures FillDirect(f, MergedAll([e1] + es1, [e2] + es2)) == FillDirect(Put(f, e2, number), MergedAll(es1, es2))
  {
    PutMerged(f, e1, e2, number);
    assert ([e1] + es1)[1..] == es1 && ([e2] + es2)[1..] == es2;
    var all := MergedAll([e1] + es1, [e2] + es2);
    assert all[0] == Merged(e1, e2) && all[1..] == MergedAll(es1, es2);
  }

  /** One event of both passes, seen against the counts at the end of the first pass. */
  lemma StepInContext(c: Counts, c': Counts, f: Fill, kinds: seq<Kind>, pending: bool, e1: Event, e2: Event, rest: seq<Event>, nodes: seq<Node>)
    requires ValidCounts(c) && SameFrames(c, f, kinds, pending) && SameEvent(e1, e2) && c' == Count(c, e1)
    requires AllowedEvent(e1, kinds, pending) && (pending ==> TopIs(kinds, Obj))
    requires Proper(rest, StackAfter(e1, kinds), PendingAfter(e1), DoneAfter(e1, kinds)) && nodes == CountAll(c', rest).nodes
    ensures Fits(nodes, f, e2)
    ensures SameFrames(c', Put(f, e2, NumberAt(nodes, f.next)), StackAfter(e1, kinds), PendingAfter(e1))
    ensures e1.Number? ==> NumberAt(nodes, f.next) == e1.value
    ensures DoneAfter(e1, kinds) ==> Put(f, e2, NumberAt(nodes, f.next)).root.Some?
  {
    var number := NumberAt(nodes, f.next);
    GrownNodes(c', rest);
    if e1.Key? {
      KeyHasEntry(c, c', e1, rest, kinds);
    }
    StepFits(c, f, kinds, pending, e1, e2, nodes);
    StaysInStep(c, f, kinds, pending, e1, e2, number);
    if DoneAfter(e1, kinds) {
      RootWhenDone(f, e2, kinds, number);
    }
  }

  /** Everything fits, and the tree is that of the events with their numbers. */
  predicate ExactFill(nodes: seq<Node>, f: Fill, es1: seq<Event>, es2: seq<Event>)
    requires |es1| == |es2|
  {
    FillsExactly(nodes, f, es2) && FillAll(nodes, f, es2) == FillDirect(f, MergedAll(es1, es2))
  }

  lemma ExactMore(nodes: seq<Node>, f: Fill, es1: seq<Event>, es2: seq<Event>)
    requires |es1| == |es2| > 0 && SameEvent(es1[0], es2[0]) && Fits(nodes, f, es2[0])
    requires es1[0].Number? ==> NumberAt(nodes, f.next) == es1[0].value
    requires ExactFill(nodes, Put(f, es2[0], NumberAt(nodes, f.next)), es1[1..], es2[1..])
    ensures ExactFill(nodes, f, es1, es2)
  {
    assert es1 == [es1[0]] + es1[1..] && es2 == [es2[0]] + es2[1..];
    MergedFirst(f, es1[0], es2[0], es1[1..], es2[1..], NumberAt(nodes, f.next));
  }

  /** The flags and both passes at the same place of the text. */
  ghost predicate InStep(c: Counts, f: Fill, kinds: seq<Kind>, pending: bool, done: bool) {
    ValidCounts(c) && SameFrames(c, f, kinds, pending) && (pending ==> TopIs(kinds, Obj)) && (done ==> f.root.Some?)
  }

  /** One event: the passes are in step behind it, and what holds for the rest then holds from here. */
  lemma FirstEvent(c: Counts, f: Fill, kinds: seq<Kind>, pending: bool, es1: seq<Event>, es2: seq<Event>)
    returns (c': Counts, f': Fill, kinds': seq<Kind>, pending': bool, done': bool)
    requires InStep(c, f, kinds, pending, false) && SameEvents(es1, es2) && Proper(es1, kinds, pending, false)
    ensures es1 != [] && SameEvents(es1[1..], es2[1..])
    ensures InStep(c', f', kinds', pending', done') && Proper(es1[1..], kinds', pending', done')
    ensures CountAll(c', es1[1..]) == CountAll(c, es1)
    ensures var nodes := CountAll(c, es1).nodes;
            ExactFill(nodes, f', es1[1..], es2[1..]) ==> ExactFill(nodes, f, es1, es2)
  {
    ProperFirst(es1, kinds, pending);
    assert SameEvent(es1[0], es2[0]) && SameEvents(es1[1..], es2[1..]);
    var nodes := CountAll(c, es1).nodes;
    c' := Count(c, es1[0]);
    kinds', pending', done' := StackAfter(es1[0], kinds), PendingAfter(es1[0]), DoneAfter(es1[0], kinds);
    StepInContext(c, c', f, kinds, pending, es1[0], es2[0], es1[1..], nodes);
    f' := Put(f, es2[0], NumberAt(nodes, f.next));
    if ExactFill(nodes, f', es1[1..], es2[1..]) {
      ExactMore(nodes, f, es1, es2);
    }
  }

  /**
    The second pass writes only to space that the first pass counted, fills every string, every
    object and every array exactly, takes every node once, and builds the tree of what was met.
   */
  lemma {:induction false} SecondPassFillsExactly(c: Counts, f: Fill, kinds: seq<Kind>, pending: bool, done: bool, es1: seq<Event>, es2: seq<Event>)
    requires InStep(c, f, kinds, pending, done) && SameEvents(es1, es2) && Proper(es1, kinds, pending, done)
    ensures ExactFill(CountAll(c, es1).nodes, f, es1, es2)
    decreases |es1|
  {
    if es1 != [] {
      var c', f', kinds', pending', done' := FirstEvent(c, f, kinds, pending, es1, es2);
      SecondPassFillsExactly(c', f', kinds', pending', done', es1[1..], es2[1..]);
    }
  }

  lemma KeyHasEntry(c: Counts, c': Counts, e: Event, rest: seq<Event>, kinds: seq<Kind>)
    requires ValidCounts(c) && |c.stack| == |kinds| && e.Key? && TopIs(kinds, Obj) && c' == Count(c, e)
    requires Proper(rest, kinds, true, false)
    ensures c.stack != [] && |c.nodes| <= |CountAll(c', rest).nodes|
    ensures var p := c.stack[|c.stack| - 1]; CountAll(c', rest).nodes[p].length > c.nodes[p].length
  {
    assert c'.stack == c.stack && |c'.nodes| == |c.nodes|;
    var p := c.stack[|c.stack| - 1];
    assert c'.nodes[p].length == c.nodes[p].length;
    OwedIsCounted(c', rest, kinds, true, |kinds| - 1);
  }

  // ---------------------------------------------------------------- the whole parser

  /** What both passes make of a text without byte order mark. */
  function TwoPasses(s: string): Option<Json> {
    match Run(START, s, true)
    case None => None
    case Some(es1) =>
      match Run(START, s, false)
      case None => None
      case Some(es2) => FillAll(CountAll(NO_COUNTS, es1).nodes, NO_FILL, es2).root
  }

  /** `json_parse_ex` with comments off. */
  function ParseEx(text: string): Option<Json> {
    TwoPasses(SkipBom(text))
  }

  /**
    For every text that the first pass accepts: the second pass accepts it, every buffer is filled
    with exactly what was counted for it, and there is a tree.
   */
  lemma ParserFillsExactly(text: string)
    requires Run(START, SkipBom(text), true).Some?
    ensures var s := SkipBom(text);
            var es1 := Run(START, s, true).value;
            var es2 := Run(START, s, false);
            && es2.Some? && SameEvents(es1, es2.value)
            && ExactFill(CountAll(NO_COUNTS, es1).nodes, NO_FILL, es1, es2.value)
            && ParseEx(text).Some?
            && ParseEx(text) == FillDirect(NO_FILL, MergedAll(es1, es2.value)).root
  {
    var s := SkipBom(text);
    PassesAgree(START, s);
    RunIsProper(START, s, true);
    var es1, es2 := Run(START, s, true).value, Run(START, s, false).value;
    PassesFill(es1, es2);
  }

  lemma PassesFill(es1: seq<Event>, es2: seq<Event>)
    requires SameEvents(es1, es2) && Proper(es1, [], false, false)
    ensures var nodes := CountAll(NO_COUNTS, es1).nodes;
            ExactFill(nodes, NO_FILL, es1, es2) && FillAll(nodes, NO_FILL, es2).root.Some?
  {
    FillFromNothing(NO_COUNTS, NO_FILL, es1, es2);
  }

  lemma FillFromNothing(c: Counts, f: Fill, es1: seq<Event>, es2: seq<Event>)
    requires c.nodes == [] && c.stack == [] && f.stack == [] && f.next == 0
    requires SameEvents(es1, es2) && Proper(es1, [], false, false)
    ensures ExactFill(CountAll(c, es1).nodes, f, es1, es2) && FillAll(CountAll(c, es1).nodes, f, es2).root.Some?
  {
    SecondPassFillsExactly(c, f, [], false, false, es1, es2);
    RootAtEnd(CountAll(c, es1).nodes, f, es2);
  }

  lemma {:induction false} RootAtEnd(nodes: seq<Node>, f: Fill, es: seq<Event>)
    requires FillsExactly(nodes, f, es)
    ensures FillAll(nodes, f, es).root.Some?
    decreases |es|
  {
    if es != [] {
      RootAtEnd(nodes, Put(f, es[0], NumberAt(nodes, f.next)), es[1..]);
    }
  }
}
