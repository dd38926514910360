/** Walking level 0 while writers are at work: each link is loaded at a later moment than the one before. */
module Scans {
  import opened Comparators
  import opened Levels
  import opened Chains
  import opened Sums
  import opened MapSpec
  import opened Seeks
  import opened Protocol
  import opened ProtocolInvariant
  import opened ProtocolEffects
  import opened ProtocolRuns
  import opened ProtocolTheorems

  /** A level at successive moments: it only gains nodes, and keys never change. */
  ghost predicate Growing(hs: seq<Heap>, ls: seq<set<nat>>) {
    && |hs| == |ls|
    && forall i, j {:trigger ls[i], ls[j]} :: 0 <= i <= j < |ls| ==> Grown(hs[i], ls[i], hs[j], ls[j])
  }

  ghost predicate Grown(h: Heap, l: set<nat>, h': Heap, l': set<nat>) {
    l <= l' && forall x {:trigger x in l} :: x in l ==> x in h && x in h' && h'[x].key == h[x].key
  }

  /** `xs` is what a full forward traversal visits, head first, loading the k-th link at moment k. */
  ghost predicate Scan(hs: seq<Heap>, xs: seq<nat>) {
    && |xs| == |hs| > 0 && xs[0] == HEAD
    && forall k {:trigger xs[k]} :: 0 <= k < |xs| ==>
         && xs[k] != 0 && HasLevel(hs[k], xs[k], 0)
         && Next(hs[k], xs[k], 0) == if k < |xs| - 1 then xs[k + 1] else 0
  }

  ghost predicate LevelsInShape(cmp: Comparator, hs: seq<Heap>, ls: seq<set<nat>>) {
    |hs| == |ls| && forall k {:trigger ls[k]} :: 0 <= k < |ls| ==> LevelOk(cmp, hs[k], ls[k], 0)
  }

  lemma VisitStep(cmp: Comparator, hs: seq<Heap>, ls: seq<set<nat>>, xs: seq<nat>, k: nat)
    requires LevelsInShape(cmp, hs, ls) && Scan(hs, xs) && k < |xs|
    ensures LevelOk(cmp, hs[k], ls[k], 0) && xs[k] != 0 && HasLevel(hs[k], xs[k], 0)
    ensures Next(hs[k], xs[k], 0) == if k < |xs| - 1 then xs[k + 1] else 0
    ensures xs[0] == HEAD && (k < |xs| - 1 ==> xs[k + 1] != 0)
  {
    hide LevelOk, TotalOrder;
    assert ls[k] == ls[k];
    assert xs[k] == xs[k];
    if k < |xs| - 1 {
      assert xs[k + 1] == xs[k + 1];
    }
  }

  lemma GrownBetween(hs: seq<Heap>, ls: seq<set<nat>>, i: nat, j: nat)
    requires Growing(hs, ls) && i <= j < |ls|
    ensures Grown(hs[i], ls[i], hs[j], ls[j])
  {
  }

  lemma GrownBefore(cmp: Comparator, h: Heap, l: set<nat>, h': Heap, l': set<nat>, x: nat, y: nat)
    requires Grown(h, l, h', l') && x in l && y in l && x in h && y in h && Before(cmp, h, x, y)
    ensures x in h' && y in h' && Before(cmp, h', x, y)
  {
  }

  lemma BeforeTransitive(cmp: Comparator, h: Heap, x: nat, y: nat, z: nat)
    requires TotalOrder(cmp) && x in h && y in h && z in h && Before(cmp, h, x, y) && Before(cmp, h, y, z)
    ensures Before(cmp, h, x, z)
  {
  }

  lemma {:induction false} VisitsAreLinked(cmp: Comparator, hs: seq<Heap>, ls: seq<set<nat>>, xs: seq<nat>, k: nat)
    requires Growing(hs, ls) && LevelsInShape(cmp, hs, ls) && Scan(hs, xs) && k < |xs| == |hs| == |ls|
    ensures xs[k] in ls[k] && xs[k] in hs[k]
    ensures k < |xs| - 1 ==> xs[k + 1] in ls[k] && xs[k + 1] in hs[k] && Before(cmp, hs[k], xs[k], xs[k + 1])
  {
    hide Growing, LevelsInShape, Scan;
    VisitStep(cmp, hs, ls, xs, k);
    if k > 0 {
      VisitsAreLinked(cmp, hs, ls, xs, k - 1);
      GrownBetween(hs, ls, k - 1, k);
    }
  }

  lemma {:induction false} VisitsAscend(cmp: Comparator, hs: seq<Heap>, ls: seq<set<nat>>, xs: seq<nat>, a: nat, b: nat)
    requires TotalOrder(cmp) && Growing(hs, ls) && LevelsInShape(cmp, hs, ls) && Scan(hs, xs)
             && a < b < |xs| == |hs| == |ls|
    ensures xs[a] in hs[|hs| - 1] && xs[b] in hs[|hs| - 1] && Before(cmp, hs[|hs| - 1], xs[a], xs[b])
  {
    hide *;
    var h, l := hs[|hs| - 1], ls[|ls| - 1];
    VisitsAreLinked(cmp, hs, ls, xs, b - 1);
    GrownBetween(hs, ls, b - 1, |ls| - 1);
    GrownBefore(cmp, hs[b - 1], ls[b - 1], h, l, xs[b - 1], xs[b]);
    if a < b - 1 {
      VisitsAscend(cmp, hs, ls, xs, a, b - 1);
      BeforeTransitive(cmp, h, xs[a], xs[b - 1], xs[b]);
    }
  }

  /** A node there from the start is either visited by step k or still ahead. */
  lemma {:induction false} NobodyIsSkipped(cmp: Comparator, hs: seq<Heap>, ls: seq<set<nat>>, xs: seq<nat>, y: nat,
      k: nat)
    requires TotalOrder(cmp) && Growing(hs, ls) && LevelsInShape(cmp, hs, ls) && Scan(hs, xs) && y in ls[0]
    requires k < |xs| == |hs| == |ls|
    ensures xs[k] in hs[k] && y in hs[k] && y in ls[k]
    ensures y in xs[..k + 1] || Before(cmp, hs[k], xs[k], y)
  {
    hide Growing, LevelsInShape, Scan, TotalOrder, LevelOk, Grown;
    VisitsAreLinked(cmp, hs, ls, xs, k);
    VisitStep(cmp, hs, ls, xs, k);
    StillThere(hs, ls, k, y);
    if k == 0 {
      assert xs[0] in xs[..1];
    } else {
      NobodyIsSkipped(cmp, hs, ls, xs, y, k - 1);
      assert xs[..k + 1] == xs[..k] + [xs[k]];
      if y !in xs[..k] && y != xs[k] {
        VisitsAreLinked(cmp, hs, ls, xs, k - 1);
        VisitStep(cmp, hs, ls, xs, k - 1);
        GrownBetween(hs, ls, k - 1, k);
        StillThere(hs, ls, k - 1, y);
        StillAhead(cmp, hs[k - 1], ls[k - 1], hs[k], ls[k], xs[k - 1], xs[k], y);
      }
    }
  }

  lemma StillThere(hs: seq<Heap>, ls: seq<set<nat>>, k: nat, y: nat)
    requires Growing(hs, ls) && k < |ls| && y in ls[0]
    ensures y in ls[k] && y in hs[k]
  {
    GrownBetween(hs, ls, 0, k);
  }

  lemma StillAhead(cmp: Comparator, h: Heap, l: set<nat>, h': Heap, l': set<nat>, x: nat, n: nat, y: nat)
    requires LevelOk(cmp, h, l, 0) && Grown(h, l, h', l')
    requires x in l && y in l && Before(cmp, h, x, y) && Next(h, x, 0) == n && n != 0 && y != n
    ensures n in h' && y in h' && Before(cmp, h', n, y)
  {
  }

  /** A traversal among concurrent writers is strictly ascending, visits everything that was there when it began, and
      only what is there when it ends. */
  lemma ScanIsFaithful(cmp: Comparator, hs: seq<Heap>, ls: seq<set<nat>>, xs: seq<nat>)
    requires TotalOrder(cmp) && Growing(hs, ls) && LevelsInShape(cmp, hs, ls) && Scan(hs, xs)
    ensures forall y :: y in ls[0] ==> y in xs
    ensures forall x :: x in xs ==> x in ls[|ls| - 1] && x in hs[|hs| - 1]
    ensures StrictlySorted(cmp, hs[|hs| - 1], xs)
  {
    assert |xs| == |hs| == |ls| > 0;
    hide Growing, LevelsInShape, Scan, TotalOrder, LevelOk;
    var last := |xs| - 1;
    forall x | x in xs ensures x in ls[last] && x in hs[last] {
      var k :| 0 <= k < |xs| && xs[k] == x;
      VisitsAreLinked(cmp, hs, ls, xs, k);
      GrownBetween(hs, ls, k, last);
    }
    forall a, b | 0 <= a < b < |xs| ensures Before(cmp, hs[last], xs[a], xs[b]) {
      VisitsAscend(cmp, hs, ls, xs, a, b);
    }
    forall y | y in ls[0] ensures y in xs {
      NobodyIsSkipped(cmp, hs, ls, xs, y, last);
      assert xs[..last + 1] == xs;
      VisitStep(cmp, hs, ls, xs, last);
    }
  }

  // -------------------- on runs --------------------

  /** Level 0 and the heap after the first `times[k]` actions, for each k. */
  ghost function HeapsAt(cmp: Comparator, capacity: nat, concurrent: bool, acts: seq<Action>,
      times: seq<nat>): seq<Heap>
    requires forall k :: 0 <= k < |times| ==> times[k] <= |acts|
  {
    seq(|times|, k requires 0 <= k < |times| => Run(cmp, capacity, concurrent, acts[..times[k]]).mem.heap)
  }

  ghost function LevelsAt(cmp: Comparator, capacity: nat, concurrent: bool, acts: seq<Action>,
      times: seq<nat>): seq<set<nat>>
    requires forall k :: 0 <= k < |times| ==> times[k] <= |acts|
    requires forall k :: 0 <= k < |times| ==> 0 < |Run(cmp, capacity, concurrent, acts[..times[k]]).mem.linked|
  {
    seq(|times|, k requires 0 <= k < |times| => Run(cmp, capacity, concurrent, acts[..times[k]]).mem.linked[0])
  }

  lemma NoNodeAtZero(m: Memory)
    requires HeapOk(m)
    ensures 0 !in m.heap
  {
    assert forall x {:trigger m.heap[x]} :: x in m.heap ==> HEAD <= x;
  }

  lemma LevelZeroAt(cmp: Comparator, capacity: nat, concurrent: bool, acts: seq<Action>)
    requires TotalOrder(cmp) && capacity >= 192
    ensures var m := Run(cmp, capacity, concurrent, acts).mem;
            0 < |m.linked| && LevelOk(cmp, m.heap, m.linked[0], 0) && 0 !in m.heap
  {
    RunInv(cmp, capacity, concurrent, acts);
    hide TotalOrder, Run, CallsOk, LogOk;
    NoNodeAtZero(Run(cmp, capacity, concurrent, acts).mem);
    LevelZero(cmp, Run(cmp, capacity, concurrent, acts).mem);
  }

  lemma GrownAt(cmp: Comparator, capacity: nat, concurrent: bool, acts: seq<Action>, t: nat, t': nat)
    requires TotalOrder(cmp) && capacity >= 192 && t <= t' <= |acts|
    ensures var m, m' := Run(cmp, capacity, concurrent, acts[..t]).mem, Run(cmp, capacity, concurrent, acts[..t']).mem;
            0 < |m.linked| && 0 < |m'.linked| && Grown(m.heap, m.linked[0], m'.heap, m'.linked[0])
  {
    LevelZeroAt(cmp, capacity, concurrent, acts[..t]);
    RunsOnlyGrow(cmp, capacity, concurrent, acts[..t], acts[t..t']);
    assert acts[..t] + acts[t..t'] == acts[..t'];
    hide TotalOrder, Run;
  }

  lemma MomentsAreGood(cmp: Comparator, capacity: nat, concurrent: bool, acts: seq<Action>, times: seq<nat>)
    requires TotalOrder(cmp) && capacity >= 192
    requires forall k :: 0 <= k < |times| ==> times[k] <= |acts|
    requires forall i, j :: 0 <= i <= j < |times| ==> times[i] <= times[j]
    ensures forall k :: 0 <= k < |times| ==> 0 < |Run(cmp, capacity, concurrent, acts[..times[k]]).mem.linked|
    ensures var hs, ls := HeapsAt(cmp, capacity, concurrent, acts, times),
            LevelsAt(cmp, capacity, concurrent, acts, times);
            Growing(hs, ls) && LevelsInShape(cmp, hs, ls)
  {
    hide Run, TotalOrder, LevelOk, Grown;
    forall k | 0 <= k < |times|
      ensures var m := Run(cmp, capacity, concurrent, acts[..times[k]]).mem;
              0 < |m.linked| && LevelOk(cmp, m.heap, m.linked[0], 0)
    {
      LevelZeroAt(cmp, capacity, concurrent, acts[..times[k]]);
    }
    var hs, ls := HeapsAt(cmp, capacity, concurrent, acts, times), LevelsAt(cmp, capacity, concurrent, acts, times);
    forall i, j | 0 <= i <= j < |ls| ensures Grown(hs[i], ls[i], hs[j], ls[j]) {
      GrownAt(cmp, capacity, concurrent, acts, times[i], times[j]);
    }
  }

  /** `seek_to_first` and repeated `next` on a list that is being written to, one atomic load each, at any moments of
      any run: no entry is seen twice or out of order, none that was stored throughout is missed, and none is made up.
      Counting the visits instead gives `len`, which therefore lies between the sizes at its start and at its end. */
  lemma ConcurrentScansAreFaithful(cmp: Comparator, capacity: nat, concurrent: bool, acts: seq<Action>,
      times: seq<nat>, xs: seq<nat>)
    requires TotalOrder(cmp) && capacity >= 192
    requires forall k :: 0 <= k < |times| ==> times[k] <= |acts|
    requires forall i, j :: 0 <= i <= j < |times| ==> times[i] <= times[j]
    requires Scan(HeapsAt(cmp, capacity, concurrent, acts, times), xs)
    ensures var m, m' := Run(cmp, capacity, concurrent, acts[..times[0]]).mem,
            Run(cmp, capacity, concurrent, acts[..times[|times| - 1]]).mem;
            && 0 < |m.linked| && 0 < |m'.linked|
            && (forall y :: y in m.linked[0] ==> y in xs)
            && (forall x :: x in xs ==> x in m'.linked[0] && x in m'.heap)
            && StrictlySorted(cmp, m'.heap, xs)
            && |m.linked[0]| <= |xs| <= |m'.linked[0]|
  {
    hide Run, TotalOrder, LevelOk, Growing, LevelsInShape;
    MomentsAreGood(cmp, capacity, concurrent, acts, times);
    var hs, ls := HeapsAt(cmp, capacity, concurrent, acts, times), LevelsAt(cmp, capacity, concurrent, acts, times);
    ScanIsFaithful(cmp, hs, ls, xs);
    ScanLength(cmp, hs[|hs| - 1], xs, ls[0], ls[|ls| - 1]);
  }

  /** `next` at any moment of any run: the link of a stored node leads to the entry with the next greater key. */
  lemma NextIsExact(cmp: Comparator, capacity: nat, concurrent: bool, acts: seq<Action>, x: nat)
    requires TotalOrder(cmp) && capacity >= 192
    requires var m := Run(cmp, capacity, concurrent, acts).mem; 0 < |m.linked| && x in m.linked[0] && x != HEAD
    ensures var m := Run(cmp, capacity, concurrent, acts).mem;
            && LevelOk(cmp, m.heap, m.linked[0], 0)
            && Nearest(cmp, Contents(m.heap, m.linked[0]), m.heap[x].key, false, false,
              EntryAt(m.heap, Next(m.heap, x, 0)))
  {
    hide *;
    LevelZeroAt(cmp, capacity, concurrent, acts);
    NextOnLevel(cmp, Run(cmp, capacity, concurrent, acts).mem.heap, Run(cmp, capacity, concurrent, acts).mem.linked[0],
      x);
  }

  lemma NextOnLevel(cmp: Comparator, h: Heap, l: set<nat>, x: nat)
    requires TotalOrder(cmp) && LevelOk(cmp, h, l, 0) && 0 !in h && x in l && x != HEAD
    ensures HasLevel(h, x, 0) && DistinctKeys(h, l)
    ensures Nearest(cmp, Contents(h, l), h[x].key, false, false, EntryAt(h, Next(h, x, 0)))
  {
    AfterNode(cmp, h, l, x, h[x].key);
  }

  lemma ScanLength(cmp: Comparator, h: Heap, xs: seq<nat>, first: set<nat>, last: set<nat>)
    requires TotalOrder(cmp) && (forall x :: x in xs ==> x in h && x in last) && StrictlySorted(cmp, h, xs)
    requires forall y :: y in first ==> y in xs
    ensures |first| <= |xs| <= |last|
  {
    forall a, b | 0 <= a < b < |xs| ensures xs[a] != xs[b] {
      assert Before(cmp, h, xs[a], xs[b]);
    }
    DistinctElements(xs);
    SubsetIsSmaller(first, Elements(xs));
    SubsetIsSmaller(Elements(xs), last);
  }
}
