/** Where a finished search stands on level 0, read as an answer of the map. */
module Seeks {
  import opened ByteStrings
  import opened Comparators
  import opened Levels
  import opened Chains
  import opened MapSpec

  /** The entry at an offset; neither 0 nor the head sentinel holds one. */
  function EntryAt(h: Heap, x: nat): Option<Entry> {
    if x == HEAD || x !in h then None else Some((h[x].key, h[x].value))
  }

  ghost predicate EqualKey(h: Heap, x: nat, key: Bytes)
    requires x in h
  {
    x != HEAD && h[x].key == key
  }

  /** `p` is the last node before `key` on level `i`. */
  ghost predicate IsGap(cmp: Comparator, h: Heap, l: set<nat>, i: nat, p: nat, key: Bytes)
    requires LevelOk(cmp, h, l, i)
  {
    p in l && BeforeKey(cmp, h, p, key) && (Next(h, p, i) == 0 || !BeforeKey(cmp, h, Next(h, p, i), key))
  }

  /** Around a gap: everything before `key` is at or before `p`, everything else at or after its successor. */
  lemma GapSides(cmp: Comparator, h: Heap, l: set<nat>, i: nat, p: nat, key: Bytes, y: nat)
    requires TotalOrder(cmp) && LevelOk(cmp, h, l, i) && IsGap(cmp, h, l, i, p, key)
    requires y in l && y != HEAD
    ensures cmp(h[y].key, key) == Less ==> p != HEAD && (y == p || cmp(h[y].key, h[p].key) == Less)
    ensures cmp(h[y].key, key) != Less ==>
              var q := Next(h, p, i); q != 0 && q in l && q != HEAD && (y == q || cmp(h[q].key, h[y].key) == Less)
  {
    var q := Next(h, p, i);
    if Before(cmp, h, p, y) {
      assert q != 0 && (q == y || Before(cmp, h, q, y));
    } else if y != p {
      assert cmp(h[y].key, h[p].key) != Equal;
    }
  }

  lemma GapBelow(cmp: Comparator, h: Heap, l: set<nat>, p: nat, key: Bytes, allowEqual: bool)
    requires TotalOrder(cmp) && LevelOk(cmp, h, l, 0) && IsGap(cmp, h, l, 0, p, key)
    requires allowEqual ==> Next(h, p, 0) == 0 || !EqualKey(h, Next(h, p, 0), key)
    ensures Nearest(cmp, Contents(h, l), key, true, allowEqual, EntryAt(h, p))
  {
    var m := Contents(h, l);
    forall k | k in m && Wanted(cmp, key, true, allowEqual, k)
      ensures p != HEAD && (k == h[p].key || cmp(k, h[p].key) == Less)
    {
      var y :| y in l && y != HEAD && h[y].key == k;
      GapSides(cmp, h, l, 0, p, key, y);
    }
  }

  lemma GapAbove(cmp: Comparator, h: Heap, l: set<nat>, p: nat, key: Bytes, allowEqual: bool)
    requires TotalOrder(cmp) && LevelOk(cmp, h, l, 0) && IsGap(cmp, h, l, 0, p, key)
    requires !allowEqual ==> Next(h, p, 0) == 0 || !EqualKey(h, Next(h, p, 0), key)
    ensures Next(h, p, 0) == 0 ==> Nearest(cmp, Contents(h, l), key, false, allowEqual, None)
    ensures Next(h, p, 0) != 0 ==> Nearest(cmp, Contents(h, l), key, false, allowEqual, EntryAt(h, Next(h, p, 0)))
  {
    var m, q := Contents(h, l), Next(h, p, 0);
    forall k | k in m && Wanted(cmp, key, false, allowEqual, k)
      ensures q != 0 && q in l && q != HEAD && (k == h[q].key || cmp(k, h[q].key) == Greater)
    {
      var y :| y in l && y != HEAD && h[y].key == k;
      GapSides(cmp, h, l, 0, p, key, y);
    }
  }

  lemma HitNode(cmp: Comparator, h: Heap, l: set<nat>, x: nat, key: Bytes, less: bool)
    requires TotalOrder(cmp) && LevelOk(cmp, h, l, 0) && x in l && EqualKey(h, x, key)
    ensures Nearest(cmp, Contents(h, l), key, less, true, EntryAt(h, x))
  {
  }

  /** The level-0 successor of any node answers "first key greater than this node's". */
  lemma AfterNode(cmp: Comparator, h: Heap, l: set<nat>, x: nat, key: Bytes)
    requires TotalOrder(cmp) && LevelOk(cmp, h, l, 0) && x in l && EqualKey(h, x, key)
    ensures Next(h, x, 0) == 0 ==> Nearest(cmp, Contents(h, l), key, false, false, None)
    ensures Next(h, x, 0) != 0 ==> Nearest(cmp, Contents(h, l), key, false, false, EntryAt(h, Next(h, x, 0)))
  {
    var m, q := Contents(h, l), Next(h, x, 0);
    forall k | k in m && Wanted(cmp, key, false, false, k)
      ensures q != 0 && q in l && q != HEAD && (k == h[q].key || cmp(k, h[q].key) == Greater)
    {
      var y :| y in l && y != HEAD && h[y].key == k;
      assert Before(cmp, h, x, y);
    }
  }

  /** A node without a level-0 successor holds the greatest key. */
  lemma LastNode(cmp: Comparator, h: Heap, l: set<nat>, x: nat)
    requires TotalOrder(cmp) && LevelOk(cmp, h, l, 0) && x in l && Next(h, x, 0) == 0
    ensures Greatest(cmp, Contents(h, l), EntryAt(h, x))
  {
    var m := Contents(h, l);
    forall k | k in m ensures x != HEAD && (k == h[x].key || cmp(k, h[x].key) == Less) {
      var y :| y in l && y != HEAD && h[y].key == k;
      assert !Before(cmp, h, x, y);
    }
  }
}
