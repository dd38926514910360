/** Each memory effect keeps the shared invariant and disturbs the other calls no more than they tolerate. */
module ProtocolEffects {
  import opened Comparators
  import opened Levels
  import opened NodeSizes
  import opened Chains
  import opened Protocol
  import opened ProtocolInvariant

  ghost predicate SameContents(cmp: Comparator, m: Memory, m': Memory)
    requires MemoryOk(cmp, m) && MemoryOk(cmp, m')
  {
    Contents(m'.heap, m'.linked[0]) == Contents(m.heap, m.linked[0])
  }

  lemma LevelZero(cmp: Comparator, m: Memory)
    requires MemoryOk(cmp, m)
    ensures LevelOk(cmp, m.heap, m.linked[0], 0)
  {
  }

  lemma RaiseEffect(cmp: Comparator, m: Memory, height: nat)
    requires MemoryOk(cmp, m) && m.height <= height < MAX_HEIGHT
    ensures MemoryOk(cmp, RaiseTo(m, height)) && SameContents(cmp, m, RaiseTo(m, height))
    ensures Evolves(m, RaiseTo(m, height), 0)
  {
    var m' := RaiseTo(m, height);
    assert LevelsOk(cmp, m') by {
      forall i | 0 <= i < MAX_HEIGHT ensures LevelOk(cmp, m'.heap, m'.linked[i], i) {
        assert m.linked[i] == m'.linked[i];
      }
    }
    LevelZero(cmp, m);
  }

  lemma LevelsFrame(cmp: Comparator, m: Memory, m': Memory)
    requires LevelsOk(cmp, m)
    requires m'.linked == m.linked && m'.links == m.links
    requires forall i {:trigger m.linked[i]} :: 0 <= i < MAX_HEIGHT ==> SameLevel(m.heap, m'.heap, m.linked[i], i)
    ensures LevelsOk(cmp, m')
  {
    forall i | 0 <= i < MAX_HEIGHT ensures LevelOk(cmp, m'.heap, m'.linked[i], i) {
      assert LevelOk(cmp, m.heap, m.linked[i], i);
      LevelFrame(cmp, m.heap, m'.heap, m.linked[i], i);
    }
  }

  lemma ContentsKept(cmp: Comparator, m: Memory, m': Memory)
    requires MemoryOk(cmp, m) && MemoryOk(cmp, m') && m'.linked[0] == m.linked[0]
    requires EntriesAgree(m.heap, m'.heap, m.linked[0])
    ensures SameContents(cmp, m, m')
  {
    LevelZero(cmp, m);
    ContentsFrame(m.heap, m'.heap, m.linked[0]);
  }

  /** The bump pointer is past every node. */
  lemma TopIsFresh(m: Memory)
    requires HeapOk(m)
    ensures forall x {:trigger m.heap[x]} :: x in m.heap ==> x < m.top
  {
    forall x {:trigger m.heap[x]} | x in m.heap ensures x < m.top {
      RoundedUp(NodeSize(m.heap[x].key, m.heap[x].value, m.heap[x].height));
    }
  }

  lemma BumpHeap(m: Memory, node: Node)
    requires HeapOk(m)
    requires |node.tower| == node.height + 1 <= MAX_HEIGHT
    requires m.top + NodeBytes(node.key, node.value, node.height) <= m.capacity
    ensures m.top !in m.heap && HEAD < m.top && HeapOk(Bump(m, m.top, node))
  {
    assert m.heap[HEAD] == m.heap[HEAD];
    RoundedUp(NodeSize(node.key, node.value, node.height));
    forall x | x in m.heap ensures x < m.top {
      RoundedUp(NodeSize(m.heap[x].key, m.heap[x].value, m.heap[x].height));
    }
  }

  /** The bump pointer is past every node, so the offset it yields is new. */
  lemma BumpEffect(cmp: Comparator, m: Memory, node: Node, mine: nat)
    requires MemoryOk(cmp, m)
    requires |node.tower| == node.height + 1 <= MAX_HEIGHT
    requires m.top + NodeBytes(node.key, node.value, node.height) <= m.capacity
    ensures m.top !in m.heap && HEAD < m.top
    ensures MemoryOk(cmp, Bump(m, m.top, node)) && SameContents(cmp, m, Bump(m, m.top, node))
    ensures Evolves(m, Bump(m, m.top, node), mine)
  {
    var m' := Bump(m, m.top, node);
    BumpHeap(m, node);
    NewEntryEvolves(m, m', m.top, node, mine);
    assert forall i {:trigger m.linked[i]} :: 0 <= i < MAX_HEIGHT ==> LevelOk(cmp, m.heap, m.linked[i], i);
    LevelsFrame(cmp, m, m');
    assert LevelOk(cmp, m.heap, m.linked[0], 0);
    ContentsKept(cmp, m, m');
  }

  lemma NewEntryEvolves(m: Memory, m': Memory, x: nat, node: Node, mine: nat)
    requires |m.linked| == |m.links| == MAX_HEIGHT && m.height < MAX_HEIGHT
    requires x !in m.heap && m'.heap == m.heap[x := node]
    requires m'.linked == m.linked && m'.links == m.links && m'.height == m.height && m'.capacity == m.capacity
    ensures Evolves(m, m', mine)
  {
  }

  lemma OwnNextEvolves(m: Memory, x: nat, i: nat, target: nat)
    requires |m.linked| == |m.links| == MAX_HEIGHT && m.height < MAX_HEIGHT
    requires i < MAX_HEIGHT && HasLevel(m.heap, x, i) && x !in m.linked[i] && x != 0
    ensures Evolves(m, SetOwnNext(m, x, i, target), x)
  {
    var m' := SetOwnNext(m, x, i, target);
    forall y: nat, j: nat {:trigger Next(m'.heap, y, j)} | HasLevel(m.heap, y, j) && !(y == x && j == i)
      ensures HasLevel(m'.heap, y, j) && Next(m'.heap, y, j) == Next(m.heap, y, j)
    {
    }
  }

  lemma OwnNextEffect(cmp: Comparator, m: Memory, x: nat, i: nat, target: nat)
    requires MemoryOk(cmp, m) && i < MAX_HEIGHT && HasLevel(m.heap, x, i) && x !in m.linked[i]
    ensures MemoryOk(cmp, SetOwnNext(m, x, i, target)) && SameContents(cmp, m, SetOwnNext(m, x, i, target))
    ensures Evolves(m, SetOwnNext(m, x, i, target), x)
  {
    var m' := SetOwnNext(m, x, i, target);
    assert m.heap[x] == m.heap[x];
    OwnNextEvolves(m, x, i, target);
    assert HeapOk(m') by {
      assert m.heap[x] == m.heap[x];
    }
    LevelsFrame(cmp, m, m');
    assert LevelOk(cmp, m.heap, m.linked[0], 0);
    ContentsKept(cmp, m, m');
  }

  lemma BackEffect(cmp: Comparator, m: Memory, x: nat, target: nat)
    requires MemoryOk(cmp, m) && x in m.heap
    ensures MemoryOk(cmp, SetBack(m, x, target)) && SameContents(cmp, m, SetBack(m, x, target))
    ensures Evolves(m, SetBack(m, x, target), 0)
  {
    var m' := SetBack(m, x, target);
    BackEvolves(m, x, target);
    assert HeapOk(m') by {
      assert m.heap[x] == m.heap[x];
    }
    LevelsFrame(cmp, m, m');
    assert LevelOk(cmp, m.heap, m.linked[0], 0);
    ContentsKept(cmp, m, m');
  }

  lemma BackEvolves(m: Memory, x: nat, target: nat)
    requires |m.linked| == |m.links| == MAX_HEIGHT && m.height < MAX_HEIGHT && x in m.heap
    ensures Evolves(m, SetBack(m, x, target), 0)
  {
  }

  ghost predicate MayLink(cmp: Comparator, m: Memory, p: nat, i: nat, n: nat) {
    && MemoryOk(cmp, m) && i <= m.height
    && CanLink(cmp, m.heap, m.linked[i], i, p, n) && n != HEAD
    && (i > 0 ==> n in m.linked[i - 1])
  }

  lemma LinkLevels(cmp: Comparator, m: Memory, p: nat, i: nat, n: nat)
    requires TotalOrder(cmp) && MayLink(cmp, m, p, i, n)
    ensures HasLevel(m.heap, p, i) && LevelsOk(cmp, Link(m, p, i, n))
  {
    assert HasLevel(m.heap, p, i);
    var m' := Link(m, p, i, n);
    assert forall j {:trigger m.linked[j]} :: 0 <= j < MAX_HEIGHT ==> LevelOk(cmp, m.heap, m.linked[j], j);
    LinkNests(m, p, i, n);
    hide TotalOrder, LevelOk, HeapOk, HeightOk;
    forall j | 0 <= j < MAX_HEIGHT ensures LevelOk(cmp, m'.heap, m'.linked[j], j) {
      LinkOneLevel(cmp, m, m', p, i, n, j);
    }
  }

  lemma LinkOneLevel(cmp: Comparator, m: Memory, m': Memory, p: nat, i: nat, n: nat, j: nat)
    requires TotalOrder(cmp) && |m.linked| == |m.links| == MAX_HEIGHT && i < MAX_HEIGHT && j < MAX_HEIGHT
    requires CanLink(cmp, m.heap, m.linked[i], i, p, n) && LevelOk(cmp, m.heap, m.linked[j], j)
    requires HasLevel(m.heap, p, i) && m' == Link(m, p, i, n)
    ensures LevelOk(cmp, m'.heap, m'.linked[j], j)
  {
    hide TotalOrder, LevelOk, CanLink;
    if j == i {
      LevelLink(cmp, m.heap, m.linked[i], i, p, n);
    } else {
      LevelFrame(cmp, m.heap, m'.heap, m.linked[j], j);
    }
  }

  lemma LinkNests(m: Memory, p: nat, i: nat, n: nat)
    requires |m.linked| == |m.links| == MAX_HEIGHT && i < MAX_HEIGHT && HasLevel(m.heap, p, i)
    requires forall j, x {:trigger x in m.linked[j]} :: 0 < j < MAX_HEIGHT && x in m.linked[j] ==> x in m.linked[j - 1]
    requires i > 0 ==> n in m.linked[i - 1]
    ensures var m' := Link(m, p, i, n);
            forall j, x {:trigger x in m'.linked[j]} :: 0 < j < MAX_HEIGHT && x in m'.linked[j] ==>
              x in m'.linked[j - 1]
  {
  }

  lemma LinkHeap(m: Memory, p: nat, i: nat, n: nat)
    requires HeapOk(m) && HasLevel(m.heap, p, i) && i < |m.linked| && i < |m.links|
    ensures HeapOk(Link(m, p, i, n))
  {
    assert m.heap[p] == m.heap[p];
  }

  lemma LinkHeights(m: Memory, p: nat, i: nat, n: nat)
    requires |m.linked| == |m.links| == MAX_HEIGHT && HeightOk(m) && i <= m.height
    requires HasLevel(m.heap, p, i) && n !in m.linked[i]
    ensures HeightOk(Link(m, p, i, n))
  {
    var m' := Link(m, p, i, n);
    forall j | 0 <= j < MAX_HEIGHT ensures m'.links[j] + 1 == |m'.linked[j]| {
      assert m.links[j] + 1 == |m.linked[j]|;
    }
    forall j | m'.height < j < MAX_HEIGHT ensures m'.linked[j] == {HEAD} {
      assert m.linked[j] == {HEAD};
    }
  }

  lemma LinkEvolves(m: Memory, p: nat, i: nat, n: nat)
    requires |m.linked| == |m.links| == MAX_HEIGHT && m.height < MAX_HEIGHT
    requires i < MAX_HEIGHT && HasLevel(m.heap, p, i) && p in m.linked[i] && n != 0
    ensures Evolves(m, Link(m, p, i, n), n)
  {
    var m' := Link(m, p, i, n);
    forall y: nat, j: nat {:trigger Next(m'.heap, y, j)} | HasLevel(m.heap, y, j) && !(y == p && j == i)
      ensures HasLevel(m'.heap, y, j) && Next(m'.heap, y, j) == Next(m.heap, y, j)
    {
    }
  }

  lemma LinkEffect(cmp: Comparator, m: Memory, p: nat, i: nat, n: nat)
    requires TotalOrder(cmp) && MayLink(cmp, m, p, i, n)
    ensures HasLevel(m.heap, p, i)
    ensures MemoryOk(cmp, Link(m, p, i, n)) && Evolves(m, Link(m, p, i, n), n)
  {
    LinkLevels(cmp, m, p, i, n);
    LinkHeap(m, p, i, n);
    LinkHeights(m, p, i, n);
    LinkEvolves(m, p, i, n);
  }

  /** Linking on level 0 adds the node's entry under a new key; higher levels do not matter to the map. */
  lemma LinkContents(cmp: Comparator, m: Memory, p: nat, i: nat, n: nat)
    requires TotalOrder(cmp) && MayLink(cmp, m, p, i, n)
    ensures HasLevel(m.heap, p, i) && MemoryOk(cmp, Link(m, p, i, n))
    ensures i > 0 ==> SameContents(cmp, m, Link(m, p, i, n))
    ensures i == 0 ==>
              && m.heap[n].key !in Contents(m.heap, m.linked[0])
              && Contents(Link(m, p, i, n).heap, Link(m, p, i, n).linked[0])
                 == Contents(m.heap, m.linked[0])[m.heap[n].key := m.heap[n].value]
  {
    LinkEffect(cmp, m, p, i, n);
    LevelZero(cmp, m);
    if i == 0 {
      ContentsLink(cmp, m.heap, m.linked[0], p, n);
    } else {
      ContentsKept(cmp, m, Link(m, p, i, n));
    }
  }
}
