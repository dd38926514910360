/** What a level's links spell out, and the map stored on level 0. */
module Chains {
  import opened ByteStrings
  import opened Comparators
  import opened Levels

  // -------------------- walking a level --------------------

  /** `r` is what a walk from `x` along the stored links of level `i` visits, up to the terminating 0. */
  ghost predicate IsWalk(h: Heap, i: nat, x: nat, r: seq<nat>)
    decreases |r|
  {
    && r != [] && r[0] == x && HasLevel(h, x, i)
    && if |r| == 1 then Next(h, x, i) == 0
       else Next(h, x, i) == r[1] && r[1] != 0 && IsWalk(h, i, r[1], r[1..])
  }

  /** `r` is the one walk of level `i` from the head. */
  ghost predicate IsTheWalk(h: Heap, i: nat, r: seq<nat>) {
    IsWalk(h, i, HEAD, r) && forall r' :: IsWalk(h, i, HEAD, r') ==> r' == r
  }

  /** `m` holds exactly the entries of the nodes in `r`, the head aside. */
  ghost predicate Spells(h: Heap, r: seq<nat>, m: map<Bytes, Bytes>) {
    && (forall x :: x in r && x != HEAD ==> x in h && h[x].key in m && m[h[x].key] == h[x].value)
    && (forall k :: k in m ==> exists x :: x in r && x != HEAD && x in h && h[x].key == k)
  }

  ghost predicate StrictlySorted(cmp: Comparator, h: Heap, r: seq<nat>)
    requires forall x :: x in r ==> x in h
  {
    forall a, b {:trigger r[a], r[b]} :: 0 <= a < b < |r| ==> Before(cmp, h, r[a], r[b])
  }

  /** The nodes of `l` strictly after `x`. */
  ghost function After(cmp: Comparator, h: Heap, l: set<nat>, x: nat): set<nat>
    requires x in h && forall y :: y in l ==> y in h
  {
    set y | y in l && Before(cmp, h, x, y)
  }

  lemma NextShrinksAfter(cmp: Comparator, h: Heap, l: set<nat>, i: nat, x: nat)
    requires TotalOrder(cmp) && LevelOk(cmp, h, l, i) && x in l && Next(h, x, i) != 0
    ensures After(cmp, h, l, x) == After(cmp, h, l, Next(h, x, i)) + {Next(h, x, i)}
    ensures |After(cmp, h, l, Next(h, x, i))| < |After(cmp, h, l, x)|
  {
    var n := Next(h, x, i);
    assert forall y :: y in l && Before(cmp, h, x, y) ==> y == n || Before(cmp, h, n, y);
    assert n !in After(cmp, h, l, n);
  }

  ghost function Chain(cmp: Comparator, h: Heap, l: set<nat>, i: nat, x: nat): (r: seq<nat>)
    requires TotalOrder(cmp) && LevelOk(cmp, h, l, i) && x in l
    ensures IsWalk(h, i, x, r)
    decreases |After(cmp, h, l, x)|
  {
    if Next(h, x, i) == 0 then [x]
    else
      NextShrinksAfter(cmp, h, l, i, x);
      var rest := Chain(cmp, h, l, i, Next(h, x, i));
      assert ([x] + rest)[1..] == rest;
      [x] + rest
  }

  lemma {:induction false} ChainElements(cmp: Comparator, h: Heap, l: set<nat>, i: nat, x: nat)
    requires TotalOrder(cmp) && LevelOk(cmp, h, l, i) && x in l
    ensures forall y {:trigger y in Chain(cmp, h, l, i, x)} :: y in Chain(cmp, h, l, i, x) <==>
            y in {x} + After(cmp, h, l, x)
    ensures |Chain(cmp, h, l, i, x)| == |After(cmp, h, l, x)| + 1
    decreases |After(cmp, h, l, x)|
  {
    var n := Next(h, x, i);
    if n == 0 {
      assert After(cmp, h, l, x) == {};
    } else {
      NextShrinksAfter(cmp, h, l, i, x);
      ChainElements(cmp, h, l, i, n);
      assert n !in After(cmp, h, l, n);
      assert Chain(cmp, h, l, i, x) == [x] + Chain(cmp, h, l, i, n);
    }
  }

  lemma {:induction false} ChainSorted(cmp: Comparator, h: Heap, l: set<nat>, i: nat, x: nat)
    requires TotalOrder(cmp) && LevelOk(cmp, h, l, i) && x in l
    ensures (forall y :: y in Chain(cmp, h, l, i, x) ==> y in h) && StrictlySorted(cmp, h, Chain(cmp, h, l, i, x))
    decreases |After(cmp, h, l, x)|
  {
    var r, n := Chain(cmp, h, l, i, x), Next(h, x, i);
    if n != 0 {
      NextShrinksAfter(cmp, h, l, i, x);
      ChainSorted(cmp, h, l, i, n);
      ChainElements(cmp, h, l, i, n);
      var rest := Chain(cmp, h, l, i, n);
      assert r == [x] + rest;
      forall b | 0 < b < |r| ensures r[b] == rest[b - 1] && r[b] in h && Before(cmp, h, x, r[b]) {
        assert r[b] in rest;
        assert r[b] in After(cmp, h, l, x);
      }
      forall a, b | 0 <= a < b < |r| ensures r[a] in h && Before(cmp, h, r[a], r[b]) {
        if a > 0 {
          assert Before(cmp, h, rest[a - 1], rest[b - 1]);
        }
      }
    }
  }

  lemma {:induction false} WalkUnique(h: Heap, i: nat, x: nat, r1: seq<nat>, r2: seq<nat>)
    requires IsWalk(h, i, x, r1) && IsWalk(h, i, x, r2)
    ensures r1 == r2
    decreases |r1|
  {
    if |r1| > 1 && |r2| > 1 {
      WalkUnique(h, i, r1[1], r1[1..], r2[1..]);
      assert r1 == [x] + r1[1..] && r2 == [x] + r2[1..];
    } else {
      assert r1 == [x] && r2 == [x];
    }
  }

  /** The walk from the head is finite, visits exactly the nodes of the level, each once, in key order. */
  lemma LevelIsSortedChain(cmp: Comparator, h: Heap, l: set<nat>, i: nat) returns (r: seq<nat>)
    requires TotalOrder(cmp) && LevelOk(cmp, h, l, i)
    ensures IsTheWalk(h, i, r)
    ensures forall y :: y in r <==> y in l
    ensures |r| == |l|
    ensures (forall y :: y in r ==> y in h) && StrictlySorted(cmp, h, r)
  {
    r := Chain(cmp, h, l, i, HEAD);
    ChainElements(cmp, h, l, i, HEAD);
    ChainSorted(cmp, h, l, i, HEAD);
    assert l == {HEAD} + After(cmp, h, l, HEAD);
    forall r' | IsWalk(h, i, HEAD, r') ensures r' == r {
      WalkUnique(h, i, HEAD, r', r);
    }
  }

  ghost predicate IsSubsequence(a: seq<nat>, b: seq<nat>) {
    a == [] || (b != [] && if a[0] == b[0] then IsSubsequence(a[1..], b[1..]) else IsSubsequence(a, b[1..]))
  }

  lemma {:induction false} SortedSubsetIsSubsequence(cmp: Comparator, h: Heap, a: seq<nat>, b: seq<nat>)
    requires TotalOrder(cmp)
    requires forall x :: x in b ==> x in h
    requires forall x :: x in a ==> x in b
    requires StrictlySorted(cmp, h, a) && StrictlySorted(cmp, h, b)
    ensures IsSubsequence(a, b)
  {
    if a != [] {
      assert a[0] in b;
      var rest := b[1..];
      assert b == [b[0]] + rest;
      if a[0] == b[0] {
        forall x | x in a[1..] ensures x in rest {
          var j :| 0 <= j < |a| - 1 && a[1..][j] == x;
          assert Before(cmp, h, a[0], a[j + 1]);
          assert x in b;
        }
        SortedSubsetIsSubsequence(cmp, h, a[1..], rest);
      } else {
        forall x | x in a ensures x in rest {
          var j :| 0 <= j < |a| && a[j] == x;
          var m :| 0 <= m < |b| && b[m] == a[0];
          assert Before(cmp, h, b[0], a[0]);
          if j > 0 {
            assert Before(cmp, h, a[0], a[j]);
          }
          assert x != b[0];
        }
        SortedSubsetIsSubsequence(cmp, h, a, rest);
      }
    }
  }

  // -------------------- the stored map --------------------

  /** The key-value map stored on level 0. */
  ghost function Contents(h: Heap, l: set<nat>): (m: map<Bytes, Bytes>)
    requires DistinctKeys(h, l)
    ensures forall x {:trigger x in l} :: x in l && x != HEAD ==> h[x].key in m && m[h[x].key] == h[x].value
    ensures forall k {:trigger k in m} :: k in m ==> exists x :: x in l && x != HEAD && h[x].key == k
  {
    map x | x in l && x != HEAD :: h[x].key := h[x].value
  }

  ghost predicate EntriesAgree(h: Heap, h': Heap, l: set<nat>) {
    forall x {:trigger x in l} :: x in l ==> x in h && x in h' && h'[x].key == h[x].key && h'[x].value == h[x].value
  }

  lemma ContentsSpelled(h: Heap, l: set<nat>, r: seq<nat>)
    requires DistinctKeys(h, l) && forall y :: y in r <==> y in l
    ensures Spells(h, r, Contents(h, l))
  {
    var m := Contents(h, l);
    forall k | k in m ensures exists x :: x in r && x != HEAD && x in h && h[x].key == k {
      var x :| x in l && x != HEAD && h[x].key == k;
      assert x in r;
    }
  }

  lemma ContentsFrame(h: Heap, h': Heap, l: set<nat>)
    requires DistinctKeys(h, l) && EntriesAgree(h, h', l)
    ensures DistinctKeys(h', l) && Contents(h', l) == Contents(h, l)
  {
    assert DistinctKeys(h', l);
    var m, m' := Contents(h, l), Contents(h', l);
    hide Contents, DistinctKeys;
    forall k | k in m ensures k in m' && m'[k] == m[k] {
      var x :| x in l && x != HEAD && h[x].key == k;
    }
    forall k | k in m' ensures k in m {
      var x :| x in l && x != HEAD && h'[x].key == k;
    }
  }

  lemma ContentsAdd(h: Heap, l: set<nat>, n: nat)
    requires DistinctKeys(h, l) && n in h && n != HEAD && n !in l
    requires forall x {:trigger x in l} :: x in l && x != HEAD ==> h[x].key != h[n].key
    ensures DistinctKeys(h, l + {n})
    ensures h[n].key !in Contents(h, l)
    ensures Contents(h, l + {n}) == Contents(h, l)[h[n].key := h[n].value]
  {
    var l' := l + {n};
    var m, m' := Contents(h, l), Contents(h, l');
    assert n in l';
    forall k | k in m ensures k in m' && m'[k] == m[k] {
      var x :| x in l && x != HEAD && h[x].key == k;
      assert x in l';
    }
    forall k | k in m' ensures k in m || k == h[n].key {
      var x :| x in l' && x != HEAD && h[x].key == k;
      assert x in l || x == n;
    }
  }

  lemma ContentsStore(h: Heap, l: set<nat>, p: nat, n: nat)
    requires DistinctKeys(h, l) && n in h && n != HEAD && n !in l && HasLevel(h, p, 0)
    requires forall x {:trigger x in l} :: x in l && x != HEAD ==> h[x].key != h[n].key
    ensures h[n].key !in Contents(h, l)
    ensures DistinctKeys(SetNext(h, p, 0, n), l + {n})
    ensures Contents(SetNext(h, p, 0, n), l + {n}) == Contents(h, l)[h[n].key := h[n].value]
  {
    ContentsAdd(h, l, n);
    ContentsFrame(h, SetNext(h, p, 0, n), l + {n});
  }

  /** Linking a node on level 0 adds exactly its key-value pair. */
  lemma ContentsLink(cmp: Comparator, h: Heap, l: set<nat>, p: nat, n: nat)
    requires TotalOrder(cmp) && CanLink(cmp, h, l, 0, p, n) && n != HEAD
    ensures LevelOk(cmp, SetNext(h, p, 0, n), l + {n}, 0)
    ensures h[n].key !in Contents(h, l)
    ensures Contents(SetNext(h, p, 0, n), l + {n}) == Contents(h, l)[h[n].key := h[n].value]
  {
    assert LevelOk(cmp, SetNext(h, p, 0, n), l + {n}, 0) by {
      LevelLink(cmp, h, l, 0, p, n);
    }
    LinkFreshKey(cmp, h, l, 0, p, n);
    ContentsStore(h, l, p, n);
  }
}
