/** The bump arena as a byte buffer, and the abstract node heap it stands for. */
module Arenas {
  import opened ByteStrings
  import opened Levels
  import opened NodeSizes
  import opened NodeLayout
  import opened Sums

  /** Node offsets in allocation order: each node starts where the one before ends. */
  ghost predicate Tiled(nodes: Heap, order: seq<nat>, end: nat)
    decreases |order|
  {
    if order == [] then end == HEAD
    else
      var last := order[|order| - 1];
      && last in nodes && end == last + NodeBytes(nodes[last].key, nodes[last].value, nodes[last].height)
      && Tiled(nodes, order[..|order| - 1], last)
  }

  /** Same keys, values and heights: links and back pointers may differ. */
  ghost predicate SameSizes(nodes: Heap, nodes': Heap) {
    forall x {:trigger x in nodes} {:trigger nodes'[x]} :: x in nodes ==>
      x in nodes' && nodes'[x].key == nodes[x].key && nodes'[x].value == nodes[x].value
        && nodes'[x].height == nodes[x].height
  }

  lemma {:induction false} TiledFrame(nodes: Heap, nodes': Heap, order: seq<nat>, end: nat)
    requires Tiled(nodes, order, end) && SameSizes(nodes, nodes')
    ensures Tiled(nodes', order, end)
    decreases |order|
  {
    if order != [] {
      TiledFrame(nodes, nodes', order[..|order| - 1], order[|order| - 1]);
    }
  }

  /** Arena bytes of the node at an offset. */
  ghost function Footprint(nodes: Heap): nat -> nat {
    x => if x in nodes then NodeBytes(nodes[x].key, nodes[x].value, nodes[x].height) else 0
  }

  /** The bytes handed out are the nodes' rounded sizes, each node counted once. */
  lemma {:induction false} TiledSum(nodes: Heap, order: seq<nat>, end: nat)
    requires Tiled(nodes, order, end)
    ensures end == HEAD + Sum(Elements(order), Footprint(nodes))
    ensures forall x :: x in order ==> x < end
    decreases |order|
  {
    if order == [] {
      assert Elements(order) == {};
    } else {
      var last, front := order[|order| - 1], order[..|order| - 1];
      TiledSum(nodes, front, last);
      RoundedUp(NodeSize(nodes[last].key, nodes[last].value, nodes[last].height));
      assert Elements(order) == Elements(front) + {last} by {
        assert order == front + [last];
      }
      SumAdd(Elements(front), Footprint(nodes), last);
    }
  }

  /** Two nodes' bytes do not overlap. */
  ghost predicate Apart(nodes: Heap, x: nat, y: nat)
    requires x in nodes && y in nodes
  {
    x + SizeOf(nodes[x]) <= y || y + SizeOf(nodes[y]) <= x
  }

  ghost predicate InBounds(nodes: Heap, top: nat) {
    forall x {:trigger nodes[x]} :: x in nodes ==>
      HEAD <= x && x + SizeOf(nodes[x]) <= top && |nodes[x].key| < U32_SIZE && |nodes[x].value| < U32_SIZE
  }

  ghost predicate Readback(b: Bytes, nodes: Heap) {
    forall x {:trigger nodes[x]} :: x in nodes ==> Encodes(b, x, nodes[x])
  }

  ghost predicate Disjoint(nodes: Heap) {
    forall x, y {:trigger nodes[x], nodes[y]} :: x in nodes && y in nodes && x != y ==> Apart(nodes, x, y)
  }

  /** The bytes below the bump pointer stand for this heap of nodes, allocated in this order. */
  ghost predicate Represents(b: Bytes, top: nat, nodes: Heap, order: seq<nat>) {
    && (top == 0 <==> order == []) && (top != 0 ==> HEAD <= top <= |b|)
    && Tiled(nodes, order, if top == 0 then HEAD else top)
    && (forall x :: x in nodes <==> x in order)
    && InBounds(nodes, top) && Readback(b, nodes) && Disjoint(nodes)
  }

  lemma EncodesOutside(b: Bytes, b': Bytes, lo: nat, hi: nat, x: nat, n: Node)
    requires Encodes(b, x, n) && SameOutside(b, b', lo, hi) && (x + SizeOf(n) <= lo || hi <= x)
    ensures Encodes(b', x, n)
  {
    SliceKept(b, b', lo, hi, x, x + SizeOf(n));
    EncodesFrame(b, b', x, n);
  }

  lemma ReadbackFrame(b: Bytes, b': Bytes, nodes: Heap, lo: nat, hi: nat)
    requires Readback(b, nodes) && SameOutside(b, b', lo, hi)
    requires forall x {:trigger nodes[x]} :: x in nodes ==> x + SizeOf(nodes[x]) <= lo || hi <= x
    ensures Readback(b', nodes)
  {
    hide Encodes, SameOutside;
    forall x | x in nodes ensures Encodes(b', x, nodes[x]) {
      assert Encodes(b, x, nodes[x]);
      EncodesOutside(b, b', lo, hi, x, nodes[x]);
    }
  }

  lemma AboveAll(nodes: Heap, top: nat, x: nat)
    requires InBounds(nodes, top) && (top <= x || nodes == map[])
    ensures x !in nodes
    ensures forall y {:trigger nodes[y]} :: y in nodes ==> y + SizeOf(nodes[y]) <= x
  {
    assert x in nodes ==> x + SizeOf(nodes[x]) <= top;
  }

  lemma AddedReadback(b: Bytes, b': Bytes, nodes: Heap, x: nat, node: Node, hi: nat)
    requires Readback(b, nodes) && Encodes(b', x, node) && SameOutside(b, b', x, hi)
    requires forall y {:trigger nodes[y]} :: y in nodes ==> y + SizeOf(nodes[y]) <= x
    ensures Readback(b', nodes[x := node])
  {
    ReadbackFrame(b, b', nodes, x, hi);
  }

  lemma AddedShape(nodes: Heap, order: seq<nat>, x: nat, node: Node, top: nat)
    requires x !in nodes && Tiled(nodes, order, x) && (forall y :: y in nodes <==> y in order)
    requires top == x + NodeBytes(node.key, node.value, node.height)
    ensures Tiled(nodes[x := node], order + [x], top)
    ensures forall y :: y in nodes[x := node] <==> y in order + [x]
  {
    TiledFrame(nodes, nodes[x := node], order, x);
    assert (order + [x])[..|order|] == order;
  }

  lemma AddedBounds(nodes: Heap, x: nat, node: Node, top: nat, top': nat)
    requires InBounds(nodes, top) && Disjoint(nodes) && HEAD <= x && x !in nodes && top <= top'
    requires forall y {:trigger nodes[y]} :: y in nodes ==> y + SizeOf(nodes[y]) <= x
    requires |node.key| < U32_SIZE && |node.value| < U32_SIZE && x + SizeOf(node) <= top'
    ensures InBounds(nodes[x := node], top') && Disjoint(nodes[x := node])
  {
    var nodes' := nodes[x := node];
    forall y, z | y in nodes' && z in nodes' && y != z ensures Apart(nodes', y, z) {
      if y != x && z != x {
        assert Apart(nodes, y, z);
      } else if y == x {
        assert z + SizeOf(nodes[z]) <= x;
      } else {
        assert y + SizeOf(nodes[y]) <= x;
      }
    }
  }

  /** Writing a node at the bump pointer adds it to the heap and disturbs no other node. */
  lemma NodeAdded(b: Bytes, b': Bytes, top: nat, nodes: Heap, order: seq<nat>, x: nat, node: Node, top': nat)
    requires Represents(b, top, nodes, order) && x == OrHead(top)
    requires node == FreshNode(node.key, node.value, node.height) && node.height < MAX_HEIGHT
    requires |node.key| < U32_SIZE && |node.value| < U32_SIZE
    requires top' == x + NodeBytes(node.key, node.value, node.height) <= |b| && x + SizeOf(node) <= top'
    requires b' == WriteNode(b, x, node.key, node.value, node.height)
    ensures x !in nodes && Represents(b', top', nodes[x := node], order + [x])
  {
    hide Encodes, SameOutside, Tiled, Disjoint, WriteNode, NodeBytes;
    AboveAll(nodes, top, x);
    WriteNodeOutside(b, x, node.key, node.value, node.height);
    WrittenNodeEncodes(b, x, node.key, node.value, node.height);
    AddedReadback(b, b', nodes, x, node, x + SizeOf(node));
    AddedShape(nodes, order, x, node, top');
    AddedBounds(nodes, x, node, top, top');
  }

  ghost predicate SameSize(n: Node, n': Node) {
    n'.key == n.key && n'.value == n.value && n'.height == n.height
  }

  lemma ChangedReadback(b: Bytes, b': Bytes, nodes: Heap, x: nat, node: Node, lo: nat, hi: nat)
    requires Readback(b, nodes) && Disjoint(nodes) && x in nodes && SameSize(nodes[x], node)
    requires Encodes(b', x, node) && SameOutside(b, b', lo, hi) && x <= lo <= hi <= x + SizeOf(node)
    ensures Readback(b', nodes[x := node])
  {
    hide Encodes, SameOutside;
    var nodes' := nodes[x := node];
    forall y | y in nodes' ensures Encodes(b', y, nodes'[y]) {
      if y != x {
        assert Apart(nodes, x, y);
        assert Encodes(b, y, nodes[y]);
        EncodesOutside(b, b', lo, hi, y, nodes[y]);
      }
    }
  }

  lemma ChangedShape(top: nat, nodes: Heap, order: seq<nat>, end: nat, x: nat, node: Node)
    requires x in nodes && SameSize(nodes[x], node)
    requires InBounds(nodes, top) && Disjoint(nodes) && Tiled(nodes, order, end)
    ensures InBounds(nodes[x := node], top) && Disjoint(nodes[x := node]) && Tiled(nodes[x := node], order, end)
  {
    var nodes' := nodes[x := node];
    forall y, z | y in nodes' && z in nodes' && y != z ensures Apart(nodes', y, z) {
      assert Apart(nodes, y, z);
    }
    TiledFrame(nodes, nodes', order, end);
  }

  /** Replacing a node by one of the same size, whose bytes have been brought up to date. */
  lemma NodeChanged(b: Bytes, b': Bytes, top: nat, nodes: Heap, order: seq<nat>, x: nat, node: Node, lo: nat, hi: nat)
    requires Represents(b, top, nodes, order) && x in nodes && SameSize(nodes[x], node)
    requires Encodes(b', x, node) && SameOutside(b, b', lo, hi) && x <= lo <= hi <= x + SizeOf(node)
    ensures Represents(b', top, nodes[x := node], order)
  {
    ChangedReadback(b, b', nodes, x, node, lo, hi);
    ChangedShape(top, nodes, order, OrHead(top), x, node);
  }

  lemma NodeReads(b: Bytes, top: nat, nodes: Heap, order: seq<nat>, x: nat)
    requires Represents(b, top, nodes, order) && x in nodes
    ensures Encodes(b, x, nodes[x]) && |nodes[x].tower| == nodes[x].height + 1 && x + SizeOf(nodes[x]) <= |b|
  {
    assert nodes[x] == nodes[x];
  }

  lemma Accounted(b: Bytes, top: nat, nodes: Heap, order: seq<nat>)
    requires Represents(b, top, nodes, order)
    ensures top == if nodes == map[] then 0 else HEAD + Sum(nodes.Keys, Footprint(nodes))
  {
    hide Readback, Disjoint, InBounds, Tiled;
    TiledSum(nodes, order, OrHead(top));
    assert nodes.Keys == Elements(order);
    if order != [] {
      assert order[0] in nodes;
    }
  }

  lemma OffsetsFit(b: Bytes, top: nat, nodes: Heap, order: seq<nat>)
    requires Represents(b, top, nodes, order)
    ensures forall x :: x in nodes ==> HEAD <= x < top <= |b|
  {
    assert forall x :: x in nodes ==> nodes[x] == nodes[x];
  }

  lemma TowerStored(b: Bytes, top: nat, nodes: Heap, order: seq<nat>, x: nat, level: nat, target: nat)
    requires Represents(b, top, nodes, order) && HasLevel(nodes, x, level) && target < U64_SIZE
    ensures x + TOWER_OFF + level * 8 + 8 <= |b|
    ensures Represents(Store(b, x + TOWER_OFF + level * 8, LittleEndian(target, 8)), top,
            SetNext(nodes, x, level, target), order)
  {
    hide Represents, Encodes, SameOutside;
    var n := nodes[x];
    NodeReads(b, top, nodes, order, x);
    EncodesSetNext(b, x, n, level, target);
    var at, word := x + TOWER_OFF + level * 8, LittleEndian(target, 8);
    StoreOutside(b, at, word, at, at + 8);
    NodeChanged(b, Store(b, at, word), top, nodes, order, x, n.(tower := n.tower[level := target]), at, at + 8);
  }

  lemma PrevStored(b: Bytes, top: nat, nodes: Heap, order: seq<nat>, x: nat, target: nat)
    requires Represents(b, top, nodes, order) && x in nodes && target < U64_SIZE
    ensures x + PREV_OFF + 8 <= |b|
    ensures Represents(Store(b, x + PREV_OFF, LittleEndian(target, 8)), top, nodes[x := nodes[x].(prev := target)],
            order)
  {
    hide Represents, Encodes, SameOutside;
    var n := nodes[x];
    NodeReads(b, top, nodes, order, x);
    EncodesSetPrev(b, x, n, target);
    var at, word := x + PREV_OFF, LittleEndian(target, 8);
    StoreOutside(b, at, word, at, at + 8);
    NodeChanged(b, Store(b, at, word), top, nodes, order, x, n.(prev := target), at, at + 8);
  }

  class Arena {
    const capacity: nat
    const buf: array<Byte>
    /** Offset of the bump pointer; 0 while it is null. */
    var top: nat
    ghost var nodes: Heap
    ghost var order: seq<nat>

    ghost predicate Valid()
      reads this, buf
    {
      buf.Length == capacity <= MAX_CAPACITY && Represents(buf[..], top, nodes, order)
    }

    constructor (capacity: nat)
      requires capacity <= MAX_CAPACITY
      ensures Valid() && this.capacity == capacity && fresh(buf)
      ensures top == 0 && nodes == map[] && order == []
    {
      this.capacity := capacity;
      this.buf := new Byte[capacity];
      this.top := 0;
      this.nodes := map[];
      this.order := [];
    }

    /** The bump pointer: 8 plus the rounded sizes of all nodes, or 0 before the first. */
    method Len() returns (r: nat)
      requires Valid()
      ensures r == top
      ensures r == if nodes == map[] then 0 else HEAD + Sum(nodes.Keys, Footprint(nodes))
    {
      hide Represents;
      r := top;
      Accounted(buf[..], top, nodes, order);
    }

    /** Hand out `size` bytes, rounded up to 8; None is the source's panic. With one thread the CAS succeeds at once. */
    method Alloc(size: nat) returns (r: Option<nat>)
      modifies this`top
      ensures OrHead(old(top)) + RoundUp(size) > capacity ==> r == None && top == old(top)
      ensures OrHead(old(top)) + RoundUp(size) <= capacity ==>
              r == Some(OrHead(old(top))) && top == OrHead(old(top)) + RoundUp(size)
    {
      var bytes := RoundUp(size);
      var offset := if top == 0 then 8 else top;
      if offset + bytes > capacity {
        return None;
      }
      top := offset + bytes;
      return Some(offset);
    }

    method StoreBytes(at: nat, bs: Bytes)
      requires at + |bs| <= buf.Length
      modifies buf
      ensures buf[..] == Store(old(buf[..]), at, bs)
    {
      forall i | 0 <= i < |bs| {
        buf[at + i] := bs[i];
      }
    }

    /** Allocate a node and copy key and value inline; its links start out empty. */
    method AllocNode(key: Bytes, value: Bytes, height: nat) returns (r: Option<nat>)
      requires Valid() && height < MAX_HEIGHT && |key| < U32_SIZE && |value| < U32_SIZE
      modifies this, buf
      ensures Valid()
      ensures r == None <==> OrHead(old(top)) + NodeBytes(key, value, height) > capacity
      ensures r == None ==> top == old(top) && nodes == old(nodes) && order == old(order)
      ensures r != None ==>
                && r == Some(OrHead(old(top))) && r.value !in old(nodes)
                && nodes == old(nodes)[r.value := FreshNode(key, value, height)]
                && order == old(order) + [r.value]
                && top == r.value + NodeBytes(key, value, height)
    {
      hide Represents;
      r := Alloc(KvDataOff(height) + |key| + |value|);
      if r.None? {
        return;
      }
      var x := r.value;
      ghost var b := buf[..];
      RoundedUp(NodeSize(key, value, height));
      WriteBytes(x, key, value, height);
      NodeAdded(b, buf[..], old(top), nodes, order, x, FreshNode(key, value, height), top);
      nodes := nodes[x := FreshNode(key, value, height)];
      order := order + [x];
    }

    /** The raw writes of `alloc_node`: header words, zeroed tower, key and value copies. */
    method WriteBytes(x: nat, key: Bytes, value: Bytes, height: nat)
      requires x + NodeSize(key, value, height) <= buf.Length
      modifies buf
      ensures buf[..] == WriteNode(old(buf[..]), x, key, value, height)
    {
      ghost var b := buf[..];
      StoreBytes(x + KEY_LEN_OFF, LittleEndian(|key|, 4));
      StoreBytes(x + VALUE_LEN_OFF, LittleEndian(|value|, 4));
      StoreBytes(x + HEIGHT_OFF, LittleEndian(height, 4));
      StoreBytes(x + PREV_OFF, LittleEndian(0, 8));
      ghost var header := buf[..];
      assert header == WriteHeader(b, x, |key|, |value|, height);
      for level := 0 to height + 1
        invariant buf[..] == ZeroTower(header, x, level)
      {
        StoreBytes(x + TOWER_OFF + level * 8, LittleEndian(0, 8));
      }
      StoreBytes(x + KvDataOff(height), key);
      StoreBytes(x + KvDataOff(height) + |key|, value);
    }

    method SetNext(x: nat, level: nat, target: nat)
      requires Valid() && HasLevel(nodes, x, level) && target < U64_SIZE
      modifies this`nodes, buf
      ensures Valid() && nodes == Levels.SetNext(old(nodes), x, level, target)
    {
      hide Represents;
      ghost var b, nodes' := buf[..], Levels.SetNext(nodes, x, level, target);
      TowerStored(b, top, nodes, order, x, level, target);
      nodes := nodes';
      StoreBytes(x + TOWER_OFF + level * 8, LittleEndian(target, 8));
      assert nodes == nodes' && buf[..] == Store(b, x + TOWER_OFF + level * 8, LittleEndian(target, 8));
    }

    method SetPrev(x: nat, target: nat)
      requires Valid() && x in nodes && target < U64_SIZE
      modifies this`nodes, buf
      ensures Valid() && nodes == old(nodes)[x := old(nodes)[x].(prev := target)]
    {
      hide Represents;
      PrevStored(buf[..], top, nodes, order, x, target);
      StoreBytes(x + PREV_OFF, LittleEndian(target, 8));
      nodes := nodes[x := nodes[x].(prev := target)];
    }

    // -------------------- accessors --------------------

    method NextOffset(x: nat, level: nat) returns (r: nat)
      requires Valid() && HasLevel(nodes, x, level)
      ensures r == Next(nodes, x, level)
    {
      hide Represents;
      NodeReads(buf[..], top, nodes, order, x);
      r := NextAt(buf[..], x, level);
    }

    method PrevOffset(x: nat) returns (r: nat)
      requires Valid() && x in nodes
      ensures r == nodes[x].prev
    {
      hide Represents;
      NodeReads(buf[..], top, nodes, order, x);
      r := PrevAt(buf[..], x);
    }

    method Key(x: nat) returns (r: Bytes)
      requires Valid() && x in nodes
      ensures r == nodes[x].key
    {
      hide Represents;
      NodeReads(buf[..], top, nodes, order, x);
      r := KeyAt(buf[..], x);
    }

    method Value(x: nat) returns (r: Bytes)
      requires Valid() && x in nodes
      ensures r == nodes[x].value
    {
      hide Represents;
      NodeReads(buf[..], top, nodes, order, x);
      r := ValueAt(buf[..], x);
    }
  }
}
