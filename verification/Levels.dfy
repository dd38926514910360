/** The abstract node heap and the shape of one skiplist level, shared by the single-writer
    class and the concurrent protocol.

    A level is described by the set of node offsets linked into it. That set determines the
    chain: `ChainIsSorted` walks the stored links and recovers it. */
module Levels {
  import opened ByteStrings
  import opened Comparators

  const MAX_HEIGHT := 20

  /** The head sentinel is the arena's first allocation. Offset 0 is never a node. */
  const HEAD: nat := 8

  /** The arena's bump pointer and a search's starting point both read 0 as "from the head". */
  function OrHead(x: nat): nat {
    if x == 0 then HEAD else x
  }

  datatype Node = Node(key: Bytes, value: Bytes, height: nat, prev: nat, tower: seq<nat>)

  type Heap = map<nat, Node>

  /** A node as allocated: not linked anywhere. */
  function FreshNode(key: Bytes, value: Bytes, height: nat): Node {
    Node(key, value, height, 0, seq(height + 1, _ => 0))
  }

  function HeadNode(): Node {
    FreshNode([], [], MAX_HEIGHT - 1)
  }

  predicate HasLevel(h: Heap, x: nat, i: nat) {
    x in h && i < |h[x].tower|
  }

  function Next(h: Heap, x: nat, i: nat): nat
    requires HasLevel(h, x, i)
  {
    h[x].tower[i]
  }

  function SetNext(h: Heap, x: nat, i: nat, target: nat): Heap
    requires HasLevel(h, x, i)
  {
    h[x := h[x].(tower := h[x].tower[i := target])]
  }

  // -------------------- order of nodes --------------------

  /** The head sorts before every other node, and the comparator never sees its key. */
  ghost predicate Before(cmp: Comparator, h: Heap, x: nat, y: nat)
    requires x in h && y in h
  {
    y != HEAD && (x == HEAD || cmp(h[x].key, h[y].key) == Less)
  }

  ghost predicate BeforeKey(cmp: Comparator, h: Heap, x: nat, key: Bytes)
    requires x in h
  {
    x == HEAD || cmp(h[x].key, key) == Less
  }

  ghost predicate AfterKey(cmp: Comparator, h: Heap, x: nat, key: Bytes)
    requires x in h
  {
    x != HEAD && cmp(h[x].key, key) == Greater
  }

  ghost predicate Members(h: Heap, l: set<nat>, i: nat) {
    && HEAD in l && 0 !in l
    && forall x {:trigger x in l} :: x in l ==> HasLevel(h, x, i)
  }

  ghost predicate LinksAscend(cmp: Comparator, h: Heap, l: set<nat>, i: nat)
    requires Members(h, l, i)
  {
    forall x {:trigger Next(h, x, i)} :: x in l && Next(h, x, i) != 0 ==>
      Next(h, x, i) in l && Before(cmp, h, x, Next(h, x, i))
  }

  ghost predicate LinksSkipNobody(cmp: Comparator, h: Heap, l: set<nat>, i: nat)
    requires Members(h, l, i)
  {
    forall x, y {:trigger Next(h, x, i), y in l} :: x in l && y in l && Before(cmp, h, x, y) ==>
      && Next(h, x, i) != 0
      && (Next(h, x, i) == y || (Next(h, x, i) in l && Before(cmp, h, Next(h, x, i), y)))
  }

  ghost predicate DistinctKeys(h: Heap, l: set<nat>) {
    && (forall x {:trigger x in l} :: x in l ==> x in h)
    && (forall x, y {:trigger x in l, y in l} :: x in l && y in l && x != HEAD && y != HEAD && h[x].key == h[y].key ==>
          x == y)
  }

  /** `l` is the set of nodes on level `i`: links stay inside it, ascend, and skip nobody. */
  ghost predicate LevelOk(cmp: Comparator, h: Heap, l: set<nat>, i: nat) {
    Members(h, l, i) && LinksAscend(cmp, h, l, i) && LinksSkipNobody(cmp, h, l, i) && DistinctKeys(h, l)
  }

  /** Same nodes with the same keys, and the same links between them. */
  ghost predicate SameLevel(h: Heap, h': Heap, l: set<nat>, i: nat) {
    forall x {:trigger x in l} {:trigger h'[x]} :: x in l && HasLevel(h, x, i) ==>
      HasLevel(h', x, i) && Next(h', x, i) == Next(h, x, i) && h'[x].key == h[x].key
  }

  lemma LevelFrame(cmp: Comparator, h: Heap, h': Heap, l: set<nat>, i: nat)
    requires LevelOk(cmp, h, l, i)
    requires SameLevel(h, h', l, i)
    ensures LevelOk(cmp, h', l, i)
  {
    assert forall x :: x in l ==> HasLevel(h', x, i) && Next(h', x, i) == Next(h, x, i) && h'[x].key == h[x].key;
  }

  /** Between a node and its successor on a level there is no key. */
  lemma NoKeyBetween(cmp: Comparator, h: Heap, l: set<nat>, i: nat, p: nat, key: Bytes, y: nat)
    requires TotalOrder(cmp) && LevelOk(cmp, h, l, i)
    requires p in l && BeforeKey(cmp, h, p, key)
    requires Next(h, p, i) == 0 || AfterKey(cmp, h, Next(h, p, i), key)
    requires y in l && y != HEAD
    ensures h[y].key != key
    ensures cmp(h[y].key, key) == Less ==> y == p || Before(cmp, h, y, p)
    ensures cmp(h[y].key, key) == Greater ==>
              Next(h, p, i) != 0 && (y == Next(h, p, i) || Before(cmp, h, Next(h, p, i), y))
  {
    var q := Next(h, p, i);
    if p == HEAD || cmp(h[p].key, h[y].key) == Less {
      assert Before(cmp, h, p, y);
      assert q != 0 && (q == y || Before(cmp, h, q, y));
    } else {
      assert cmp(h[y].key, h[p].key) != Greater;
    }
  }

  /** `n`, already pointing at `p`'s successor, is about to be linked after `p`. */
  ghost predicate CanLink(cmp: Comparator, h: Heap, l: set<nat>, i: nat, p: nat, n: nat) {
    && LevelOk(cmp, h, l, i)
    && p in l && n !in l && n != 0 && HasLevel(h, n, i)
    && Next(h, n, i) == Next(h, p, i)
    && BeforeKey(cmp, h, p, h[n].key)
    && (Next(h, p, i) == 0 || AfterKey(cmp, h, Next(h, p, i), h[n].key))
  }

  lemma LinkSkipsNobody(cmp: Comparator, h: Heap, l: set<nat>, i: nat, p: nat, n: nat, x: nat, y: nat)
    requires TotalOrder(cmp) && CanLink(cmp, h, l, i, p, n)
    requires x in l + {n} && y in l + {n} && Before(cmp, h, x, y)
    ensures var z := if x == p then n else Next(h, x, i);
            z != 0 && z in l + {n} && (z == y || Before(cmp, h, z, y))
  {
    var q, key := Next(h, p, i), h[n].key;
    if y != n && y != HEAD {
      NoKeyBetween(cmp, h, l, i, p, key, y);
    }
    if x != n && x != HEAD {
      NoKeyBetween(cmp, h, l, i, p, key, x);
    }
    if y == n && x != p {
      assert x in l && Before(cmp, h, x, p);
      assert Next(h, x, i) == p || Before(cmp, h, Next(h, x, i), p);
    }
  }

  lemma LinkFreshKey(cmp: Comparator, h: Heap, l: set<nat>, i: nat, p: nat, n: nat)
    requires TotalOrder(cmp) && CanLink(cmp, h, l, i, p, n)
    ensures forall y {:trigger y in l} :: y in l && y != HEAD ==> h[y].key != h[n].key
  {
    forall y | y in l && y != HEAD ensures h[y].key != h[n].key {
      NoKeyBetween(cmp, h, l, i, p, h[n].key, y);
    }
  }

  lemma LinkedHeap(h: Heap, l: set<nat>, i: nat, p: nat, n: nat)
    requires Members(h, l, i) && p in l && n !in l && n != 0 && HasLevel(h, n, i)
    ensures var h' := SetNext(h, p, i, n);
            && Members(h', l + {n}, i)
            && (forall x {:trigger Next(h', x, i)} :: x in l + {n} ==>
                  Next(h', x, i) == if x == p then n else Next(h, x, i))
            && (forall x {:trigger h'[x]} :: x in l + {n} ==> h'[x].key == h[x].key)
  {
  }

  /** Linking keeps the level in shape. */
  lemma LevelLink(cmp: Comparator, h: Heap, l: set<nat>, i: nat, p: nat, n: nat)
    requires TotalOrder(cmp) && CanLink(cmp, h, l, i, p, n)
    ensures LevelOk(cmp, SetNext(h, p, i, n), l + {n}, i)
  {
    var h', l' := SetNext(h, p, i, n), l + {n};
    LinkedHeap(h, l, i, p, n);
    assert LinksAscend(cmp, h', l', i);
    forall x, y | x in l' && y in l' && Before(cmp, h', x, y)
      ensures Next(h', x, i) != 0
      ensures Next(h', x, i) == y || (Next(h', x, i) in l' && Before(cmp, h', Next(h', x, i), y))
    {
      LinkSkipsNobody(cmp, h, l, i, p, n, x, y);
    }
    assert DistinctKeys(h', l') by {
      LinkFreshKey(cmp, h, l, i, p, n);
    }
  }
}
