/** The shape of a single-writer list: what holds between puts, and while a new node is being linked.

    Every allocated node is linked on all the levels of its tower, so a level is determined by the heap. */
module ListShape {
  import opened ByteStrings
  import opened Comparators
  import opened Levels
  import opened Chains
  import opened MapSpec
  import opened Seeks
  import opened Sums
  import opened Arenas

  ghost function OnLevel(h: Heap, i: nat): set<nat> {
    set x | x in h && i <= h[x].height
  }

  ghost predicate TowersOk(h: Heap) {
    && 0 !in h && HEAD in h && h[HEAD].height == MAX_HEIGHT - 1 && h[HEAD].prev == 0 && h[HEAD].key == []
      && h[HEAD].value == []
    && forall x {:trigger h[x]} :: x in h ==> |h[x].tower| == h[x].height + 1 <= MAX_HEIGHT
  }

  ghost predicate HeightsBounded(h: Heap, height: nat) {
    forall x {:trigger h[x]} :: x in h && x != HEAD ==> h[x].height <= height
  }

  /** Each node's successor points back at it. */
  ghost predicate BackPointers(h: Heap, l: set<nat>)
    requires Members(h, l, 0)
  {
    forall x {:trigger Next(h, x, 0)} :: x in l && Next(h, x, 0) != 0 ==>
      Next(h, x, 0) in h && h[Next(h, x, 0)].prev == x
  }

  /** The list between two puts. */
  ghost predicate Settled(cmp: Comparator, h: Heap, height: nat) {
    && TowersOk(h) && height < MAX_HEIGHT && HeightsBounded(h, height)
    && (forall i {:trigger OnLevel(h, i)} :: 0 <= i < MAX_HEIGHT ==> LevelOk(cmp, h, OnLevel(h, i), i))
    && BackPointers(h, OnLevel(h, 0))
  }

  /** What the list stores. */
  ghost function Stored(h: Heap): map<Bytes, Bytes>
    requires DistinctKeys(h, OnLevel(h, 0))
  {
    Contents(h, OnLevel(h, 0))
  }

  lemma LevelOf(cmp: Comparator, h: Heap, height: nat, i: nat)
    requires Settled(cmp, h, height) && i < MAX_HEIGHT
    ensures LevelOk(cmp, h, OnLevel(h, i), i) && HEAD in OnLevel(h, i)
  {
    assert OnLevel(h, i) == OnLevel(h, i);
  }

  lemma SettledBasics(cmp: Comparator, h: Heap, height: nat)
    requires Settled(cmp, h, height)
    ensures height < MAX_HEIGHT && TowersOk(h) && HeightsBounded(h, height) && DistinctKeys(h, OnLevel(h, 0))
  {
    LevelOf(cmp, h, height, 0);
  }

  /** A node found on one level can be searched from on the next level down. */
  lemma StartBelow(h: Heap, level: nat, x: nat)
    requires TowersOk(h) && level < MAX_HEIGHT && (x in OnLevel(h, level + 1) || x == HEAD)
    ensures x in OnLevel(h, level)
  {
  }

  lemma FreshListSettled(cmp: Comparator)
    ensures Settled(cmp, map[HEAD := HeadNode()], 0)
    ensures Stored(map[HEAD := HeadNode()]) == map[]
  {
    var h: Heap := map[HEAD := HeadNode()];
    forall i | 0 <= i < MAX_HEIGHT ensures LevelOk(cmp, h, OnLevel(h, i), i) {
      assert OnLevel(h, i) == {HEAD};
    }
    assert OnLevel(h, 0) == {HEAD};
  }

  // -------------------- gaps --------------------

  /** `p` and `q` are the neighbours of the absent `key` on level `i`. */
  ghost predicate Gap(cmp: Comparator, h: Heap, l: set<nat>, i: nat, p: nat, q: nat, key: Bytes) {
    && p in l && HasLevel(h, p, i) && BeforeKey(cmp, h, p, key) && q == Next(h, p, i)
    && (q == 0 || (q in l && q in h && AfterKey(cmp, h, q, key)))
  }

  /** Above the list height a level holds the head alone. */
  lemma EmptyAbove(cmp: Comparator, h: Heap, height: nat, i: nat, key: Bytes)
    requires Settled(cmp, h, height) && height < i < MAX_HEIGHT
    ensures OnLevel(h, i) == {HEAD} && Gap(cmp, h, OnLevel(h, i), i, HEAD, 0, key)
  {
    LevelOf(cmp, h, height, i);
    assert OnLevel(h, i) == {HEAD};
    assert Next(h, HEAD, i) == 0;
  }

  lemma GapMeansAbsent(cmp: Comparator, h: Heap, l: set<nat>, p: nat, q: nat, key: Bytes)
    requires TotalOrder(cmp) && LevelOk(cmp, h, l, 0) && Gap(cmp, h, l, 0, p, q, key)
    ensures key !in Contents(h, l)
  {
    if key in Contents(h, l) {
      var y :| y in l && y != HEAD && h[y].key == key;
      NoKeyBetween(cmp, h, l, 0, p, key, y);
    }
  }

  lemma TakenKey(cmp: Comparator, h: Heap, height: nat, x: nat, key: Bytes)
    requires Settled(cmp, h, height) && DistinctKeys(h, OnLevel(h, 0)) && x in h && EqualKey(h, x, key)
    ensures key in Stored(h) && Stored(h)[key] == h[x].value
  {
    assert x in OnLevel(h, 0);
  }

  lemma FreeKey(cmp: Comparator, h: Heap, height: nat, p: nat, q: nat, key: Bytes)
    requires TotalOrder(cmp) && Settled(cmp, h, height) && DistinctKeys(h, OnLevel(h, 0))
    requires Gap(cmp, h, OnLevel(h, 0), 0, p, q, key)
    ensures key !in Stored(h)
  {
    LevelOf(cmp, h, height, 0);
    GapMeansAbsent(cmp, h, OnLevel(h, 0), p, q, key);
  }

  /** What a node weighs, counted from its own contents: header, tower words, key and value, rounded up to 8. */
  ghost function TowerWeights(h: Heap): nat -> nat {
    x => if x in h then (24 + 8 * |h[x].tower| + |h[x].key| + |h[x].value| + 7) / 8 * 8 else 0
  }

  lemma SameFootprint(cmp: Comparator, h: Heap, height: nat, s: set<nat>)
    requires Settled(cmp, h, height)
    ensures Sum(s, Footprint(h)) == Sum(s, TowerWeights(h))
  {
    SettledBasics(cmp, h, height);
    hide Settled;
    forall x | x in s ensures Footprint(h)(x) == TowerWeights(h)(x) {
      assert x in h ==> |h[x].tower| == h[x].height + 1;
    }
    SumSameWeights(s, Footprint(h), TowerWeights(h));
  }

  lemma StartSearch(cmp: Comparator, h: Heap, height: nat)
    requires Settled(cmp, h, height)
    ensures height < MAX_HEIGHT && 0 !in h && HEAD in h && HEAD in OnLevel(h, height) && DistinctKeys(h, OnLevel(h, 0))
    ensures forall i, y :: y in OnLevel(h, i) ==> y in h
  {
    LevelOf(cmp, h, height, height);
    LevelOf(cmp, h, height, 0);
  }

  lemma KeyIsEqual(cmp: Comparator, a: Bytes, b: Bytes)
    requires TotalOrder(cmp) && cmp(a, b) == Equal
    ensures a == b
  {
  }

  lemma HeadFootprint(cmp: Comparator, h: Heap, height: nat)
    requires Settled(cmp, h, height)
    ensures h.Keys == (OnLevel(h, 0) - {HEAD}) + {HEAD} && h != map[]
    ensures Sum(h.Keys, Footprint(h)) == 184 + Sum(OnLevel(h, 0) - {HEAD}, Footprint(h))
  {
    LevelZeroIsAll(h);
    SumAdd(h.Keys - {HEAD}, Footprint(h), HEAD);
    assert h.Keys - {HEAD} + {HEAD} == h.Keys;
  }

  /** Where one load of a search leads. */
  lemma SearchStep(cmp: Comparator, h: Heap, height: nat, level: nat, x: nat)
    requires TotalOrder(cmp) && Settled(cmp, h, height) && level < MAX_HEIGHT && x in OnLevel(h, level)
    ensures HasLevel(h, x, level) && (level > 0 ==> x in OnLevel(h, level - 1))
    ensures forall y :: y in OnLevel(h, level) ==> y in h
    ensures var next := Next(h, x, level);
            next != 0 ==> next in OnLevel(h, level) && next in OnLevel(h, 0) && next != HEAD && next in h
                          && |After(cmp, h, OnLevel(h, level), next)| < |After(cmp, h, OnLevel(h, level), x)|
  {
    LevelOf(cmp, h, height, level);
    if Next(h, x, level) != 0 {
      NextShrinksAfter(cmp, h, OnLevel(h, level), level, x);
    }
  }

  /** What a seek may answer once it stands in front of `key` on level 0. */
  lemma AnswerAtGap(cmp: Comparator, h: Heap, height: nat, p: nat, key: Bytes, less: bool, allowEqual: bool)
    requires TotalOrder(cmp) && Settled(cmp, h, height) && DistinctKeys(h, OnLevel(h, 0))
    requires p in OnLevel(h, 0) && HasLevel(h, p, 0) && BeforeKey(cmp, h, p, key)
    requires var q := Next(h, p, 0);
             q == 0 || (q in h && q != HEAD && cmp(h[q].key, key) != Less
               && (cmp(h[q].key, key) == Equal ==> less != allowEqual))
    ensures var r := if less then (if p == HEAD then 0 else p) else Next(h, p, 0);
            && (r == 0 || (r in OnLevel(h, 0) && r != HEAD))
            && Nearest(cmp, Stored(h), key, less, allowEqual, EntryAt(h, r))
  {
    LevelOf(cmp, h, height, 0);
    if less {
      GapBelow(cmp, h, OnLevel(h, 0), p, key, allowEqual);
    } else {
      GapAbove(cmp, h, OnLevel(h, 0), p, key, allowEqual);
    }
  }

  lemma AnswerAtHit(cmp: Comparator, h: Heap, height: nat, x: nat, key: Bytes, less: bool)
    requires TotalOrder(cmp) && Settled(cmp, h, height) && DistinctKeys(h, OnLevel(h, 0))
    requires x in OnLevel(h, 0) && x in h && EqualKey(h, x, key)
    ensures Nearest(cmp, Stored(h), key, less, true, EntryAt(h, x))
  {
    LevelOf(cmp, h, height, 0);
    HitNode(cmp, h, OnLevel(h, 0), x, key, less);
  }

  /** The level-0 successor of a node. */
  lemma AnswerAfter(cmp: Comparator, h: Heap, height: nat, x: nat, key: Bytes)
    requires TotalOrder(cmp) && Settled(cmp, h, height) && DistinctKeys(h, OnLevel(h, 0))
    requires x in OnLevel(h, 0) && x in h && EqualKey(h, x, key)
    ensures HasLevel(h, x, 0)
    ensures var r := Next(h, x, 0);
            (r == 0 || (r in OnLevel(h, 0) && r != HEAD)) && Nearest(cmp, Stored(h), key, false, false, EntryAt(h, r))
  {
    LevelOf(cmp, h, height, 0);
    AfterNode(cmp, h, OnLevel(h, 0), x, key);
  }

  lemma AnswerAtEnd(cmp: Comparator, h: Heap, height: nat, x: nat)
    requires TotalOrder(cmp) && Settled(cmp, h, height) && DistinctKeys(h, OnLevel(h, 0))
    requires x in OnLevel(h, 0) && HasLevel(h, x, 0) && Next(h, x, 0) == 0
    ensures Greatest(cmp, Stored(h), EntryAt(h, if x == HEAD then 0 else x))
  {
    LevelOf(cmp, h, height, 0);
    LastNode(cmp, h, OnLevel(h, 0), x);
  }

  lemma AnswerAtStart(cmp: Comparator, h: Heap, height: nat)
    requires TotalOrder(cmp) && Settled(cmp, h, height) && DistinctKeys(h, OnLevel(h, 0))
    ensures HasLevel(h, HEAD, 0)
    ensures var r := Next(h, HEAD, 0);
            (r == 0 || (r in OnLevel(h, 0) && r != HEAD)) && Least(cmp, Stored(h), EntryAt(h, r))
  {
    LevelOf(cmp, h, height, 0);
    var q, m := Next(h, HEAD, 0), Stored(h);
    forall k | k in m ensures q != 0 && (k == h[q].key || cmp(k, h[q].key) == Greater) {
      var y :| y in OnLevel(h, 0) && y != HEAD && h[y].key == k;
      assert Before(cmp, h, HEAD, y);
    }
  }

  // -------------------- back pointers --------------------

  lemma {:induction false} PredecessorFrom(cmp: Comparator, h: Heap, l: set<nat>, x: nat, y: nat) returns (p: nat)
    requires TotalOrder(cmp) && LevelOk(cmp, h, l, 0) && x in l && y in l && Before(cmp, h, x, y)
    ensures p in l && Next(h, p, 0) == y
    decreases |After(cmp, h, l, x)|
  {
    if Next(h, x, 0) == y {
      p := x;
    } else {
      NextShrinksAfter(cmp, h, l, 0, x);
      p := PredecessorFrom(cmp, h, l, Next(h, x, 0), y);
    }
  }

  /** Between puts, `prev` is the exact inverse of the level-0 link. */
  lemma PrevIsInverseOfNext(cmp: Comparator, h: Heap, height: nat, x: nat, y: nat)
    requires TotalOrder(cmp) && Settled(cmp, h, height)
    requires x in h && y in h && y != HEAD
    ensures h[y].prev in h && HasLevel(h, h[y].prev, 0) && Next(h, h[y].prev, 0) == y
    ensures HasLevel(h, x, 0) && (Next(h, x, 0) == y <==> h[y].prev == x)
  {
    LevelOf(cmp, h, height, 0);
    LevelZeroIsAll(h);
    var p := PredecessorFrom(cmp, h, OnLevel(h, 0), HEAD, y);
    assert h[x] == h[x] && HasLevel(h, p, 0);
  }

  /** The back pointer leads to the nearest smaller key. */
  lemma AnswerBefore(cmp: Comparator, h: Heap, height: nat, y: nat)
    requires TotalOrder(cmp) && Settled(cmp, h, height) && DistinctKeys(h, OnLevel(h, 0))
    requires y in OnLevel(h, 0) && y in h && y != HEAD
    ensures var p := h[y].prev; var r := if p == HEAD then 0 else p;
            (r == 0 || (r in OnLevel(h, 0) && r != HEAD))
              && Nearest(cmp, Stored(h), h[y].key, true, false, EntryAt(h, r))
  {
    LevelOf(cmp, h, height, 0);
    LevelZeroIsAll(h);
    var p := h[y].prev;
    PrevIsInverseOfNext(cmp, h, height, HEAD, y);
    assert Before(cmp, h, p, y);
    AnswerAtGap(cmp, h, height, p, h[y].key, true, false);
  }

  lemma {:induction false} ContentsSize(h: Heap, l: set<nat>)
    requires DistinctKeys(h, l) && HEAD in l
    ensures |Contents(h, l)| == |l| - 1
    decreases |l|
  {
    if x :| x in l && x != HEAD {
      ContentsSize(h, l - {x});
      ContentsAdd(h, l - {x}, x);
      assert l - {x} + {x} == l;
    } else {
      assert l == {HEAD};
      assert Contents(h, l) == map[];
    }
  }

  lemma AllAfterHead(cmp: Comparator, h: Heap, l: set<nat>)
    requires HEAD in l && forall y :: y in l ==> y in h
    ensures After(cmp, h, l, HEAD) == l - {HEAD}
  {
  }

  lemma NoneAfterLast(cmp: Comparator, h: Heap, l: set<nat>, x: nat)
    requires LevelOk(cmp, h, l, 0) && x in l && Next(h, x, 0) == 0
    ensures After(cmp, h, l, x) == {}
  {
  }

  lemma NotAfterItself(cmp: Comparator, h: Heap, l: set<nat>, x: nat)
    requires TotalOrder(cmp) && x in h && forall y :: y in l ==> y in h
    ensures x !in After(cmp, h, l, x)
  {
  }

  // -------------------- linking a node --------------------

  /** The nodes on level `j` once the new node `n` is linked below level `i`. */
  ghost function Spliced(h: Heap, n: nat, i: nat, j: nat): set<nat> {
    if j < i then OnLevel(h, j) else OnLevel(h, j) - {n}
  }

  ghost predicate LevelsSpliced(cmp: Comparator, h: Heap, n: nat, i: nat) {
    forall j {:trigger Spliced(h, n, i, j)} :: 0 <= j < MAX_HEIGHT ==> LevelOk(cmp, h, Spliced(h, n, i, j), j)
  }

  /** The list in the middle of a put. */
  ghost predicate Linking(cmp: Comparator, h: Heap, n: nat, i: nat) {
    && TowersOk(h) && n in h && n != HEAD
    && LevelsSpliced(cmp, h, n, i)
    && Members(h, Spliced(h, n, i, 0), 0) && BackPointers(h, Spliced(h, n, i, 0))
  }

  /** The neighbours found by the search still bracket the new key on the levels to come. */
  ghost predicate Gaps(cmp: Comparator, h: Heap, n: nat, i: nat, prev: seq<nat>, next: seq<nat>)
    requires n in h
  {
    && |prev| == |next| == MAX_HEIGHT + 1
    && forall j {:trigger prev[j]} :: i <= j < MAX_HEIGHT && j <= h[n].height ==>
         Gap(cmp, h, OnLevel(h, j) - {n}, j, prev[j], next[j], h[n].key)
  }

  /** The stores of one turn of the linking loop. */
  ghost function BackLinked(h: Heap, n: nat, p: nat, q: nat): Heap
    requires n in h && (q != 0 ==> q in h)
  {
    var h1 := h[n := h[n].(prev := p)];
    if q != 0 then h1[q := h1[q].(prev := n)] else h1
  }

  ghost function LinkedOn(h: Heap, n: nat, i: nat, p: nat, q: nat): Heap
    requires HasLevel(h, n, i) && HasLevel(h, p, i) && (q != 0 ==> q in h)
  {
    var h1 := if i == 0 then BackLinked(h, n, p, q) else h;
    SetNext(SetNext(h1, n, i, q), p, i, n)
  }

  /** Same nodes, up to links and back pointers. */
  ghost predicate SameNodes(h: Heap, h': Heap) {
    && h'.Keys == h.Keys
    && forall x {:trigger h[x]} {:trigger h'[x]} :: x in h ==>
         h'[x].key == h[x].key && h'[x].value == h[x].value && h'[x].height == h[x].height
           && |h'[x].tower| == |h[x].tower|
  }

  /** The effect of one turn on every link. */
  lemma LinkedOnNodes(h: Heap, n: nat, i: nat, p: nat, q: nat)
    requires HasLevel(h, n, i) && HasLevel(h, p, i) && (q != 0 ==> q in h) && n != p
    ensures var h' := LinkedOn(h, n, i, p, q);
            && SameNodes(h, h')
            && (forall x, j {:trigger Next(h', x, j)} :: HasLevel(h, x, j) ==>
                  Next(h', x, j) ==
                  if j != i then Next(h, x, j) else if x == p then n else if x == n then q else Next(h, x, j))
            && (forall x {:trigger h'[x].prev} :: x in h ==>
                  h'[x].prev == if i == 0 && x == q && q != 0 then n else if i == 0 && x == n then p else h[x].prev)
  {
    var h1 := if i == 0 then BackLinked(h, n, p, q) else h;
    assert forall x {:trigger h1[x]} {:trigger h[x]} :: x in h ==>
             h1[x] == h[x].(prev :=
               if i == 0 && x == q && q != 0 then n else if i == 0 && x == n then p else h[x].prev);
    TwoStores(h1, n, i, q, p);
  }

  lemma TwoStores(h: Heap, n: nat, i: nat, q: nat, p: nat)
    requires HasLevel(h, n, i) && HasLevel(h, p, i) && n != p
    ensures var h' := SetNext(SetNext(h, n, i, q), p, i, n);
            && SameNodes(h, h')
            && (forall x, j {:trigger Next(h', x, j)} :: HasLevel(h, x, j) ==>
                  Next(h', x, j) ==
                  if j != i then Next(h, x, j) else if x == p then n else if x == n then q else Next(h, x, j))
            && (forall x {:trigger h'[x].prev} :: x in h ==> h'[x].prev == h[x].prev)
  {
  }

  lemma SameLevels(h: Heap, h': Heap, j: nat)
    requires SameNodes(h, h')
    ensures OnLevel(h', j) == OnLevel(h, j)
  {
  }

  /** Levels other than the one being linked do not change. */
  lemma OtherLevelKept(cmp: Comparator, h: Heap, h': Heap, n: nat, i: nat, p: nat, q: nat, j: nat)
    requires Linking(cmp, h, n, i) && j < MAX_HEIGHT && j != i
    requires HasLevel(h, n, i) && HasLevel(h, p, i) && (q != 0 ==> q in h) && n != p
    requires h' == LinkedOn(h, n, i, p, q)
    ensures LevelOk(cmp, h', Spliced(h', n, i + 1, j), j)
  {
    LinkedOnNodes(h, n, i, p, q);
    SameLevels(h, h', j);
    var l := Spliced(h, n, i, j);
    assert LevelOk(cmp, h, l, j);
    assert SameLevel(h, h', l, j);
    LevelFrame(cmp, h, h', l, j);
  }

  /** Pointing the new node at its successor leaves the level as it was. */
  lemma ReadyToLink(cmp: Comparator, h: Heap, h1: Heap, h2: Heap, l: set<nat>, n: nat, i: nat, p: nat, q: nat)
    requires LevelOk(cmp, h, l, i) && n !in l && n != 0 && HasLevel(h, n, i)
    requires Gap(cmp, h, l, i, p, q, h[n].key)
    requires h1 == if i == 0 then BackLinked(h, n, p, q) else h
    requires HasLevel(h1, n, i) && h2 == SetNext(h1, n, i, q)
    ensures CanLink(cmp, h2, l, i, p, n)
  {
    LevelFrame(cmp, h, h2, l, i);
    hide LevelOk;
  }

  /** The level being linked gains the new node. */
  lemma ThisLevelLinked(cmp: Comparator, h: Heap, h': Heap, n: nat, i: nat, p: nat, q: nat)
    requires TotalOrder(cmp) && Linking(cmp, h, n, i) && i <= h[n].height && i < MAX_HEIGHT
    requires Gap(cmp, h, OnLevel(h, i) - {n}, i, p, q, h[n].key)
    requires h' == LinkedOn(h, n, i, p, q)
    ensures LevelOk(cmp, h', OnLevel(h', i), i)
  {
    var l := OnLevel(h, i) - {n};
    assert l == Spliced(h, n, i, i);
    var h1 := if i == 0 then BackLinked(h, n, p, q) else h;
    var h2 := SetNext(h1, n, i, q);
    ReadyToLink(cmp, h, h1, h2, l, n, i, p, q);
    LevelLink(cmp, h2, l, i, p, n);
    LinkedOnNodes(h, n, i, p, q);
    hide LevelOk, LinkedOn;
    SameLevels(h, h', i);
    assert OnLevel(h', i) == l + {n};
  }

  lemma BackPointersKept(cmp: Comparator, h: Heap, h': Heap, n: nat, i: nat, p: nat, q: nat)
    requires TotalOrder(cmp) && Linking(cmp, h, n, i) && i <= h[n].height && i < MAX_HEIGHT
    requires Gap(cmp, h, OnLevel(h, i) - {n}, i, p, q, h[n].key)
    requires h' == LinkedOn(h, n, i, p, q)
    requires Members(h', Spliced(h', n, i + 1, 0), 0)
    ensures BackPointers(h', Spliced(h', n, i + 1, 0))
  {
    LinkedOnNodes(h, n, i, p, q);
    SameLevels(h, h', 0);
    var l, l' := Spliced(h, n, i, 0), Spliced(h', n, i + 1, 0);
    assert LevelOk(cmp, h, l, 0);
    forall x | x in l' && Next(h', x, 0) != 0 ensures Next(h', x, 0) in h' && h'[Next(h', x, 0)].prev == x {
      if i > 0 || x in l {
        assert x in l;
        if i == 0 && x != p && q != 0 {
          OnePredecessor(cmp, h, l, x, p);
        }
      }
    }
  }

  /** Two nodes of a level never share a successor. */
  lemma OnePredecessor(cmp: Comparator, h: Heap, l: set<nat>, x: nat, y: nat)
    requires TotalOrder(cmp) && LevelOk(cmp, h, l, 0) && x in l && y in l && x != y
    requires Next(h, x, 0) != 0
    ensures Next(h, y, 0) != Next(h, x, 0)
  {
    assert Before(cmp, h, x, y) || Before(cmp, h, y, x) by {
      assert x != HEAD && y != HEAD ==> h[x].key != h[y].key;
    }
  }

  /** One turn of the linking loop. */
  lemma LinkTurn(cmp: Comparator, h: Heap, h': Heap, n: nat, i: nat, prev: seq<nat>, next: seq<nat>)
    requires TotalOrder(cmp) && Linking(cmp, h, n, i) && Gaps(cmp, h, n, i, prev, next)
    requires i <= h[n].height && i < MAX_HEIGHT
    requires HasLevel(h, n, i) && HasLevel(h, prev[i], i) && (next[i] != 0 ==> next[i] in h)
    requires h' == LinkedOn(h, n, i, prev[i], next[i])
    ensures SameNodes(h, h') && Linking(cmp, h', n, i + 1) && Gaps(cmp, h', n, i + 1, prev, next)
  {
    var p, q := prev[i], next[i];
    assert Gap(cmp, h, OnLevel(h, i) - {n}, i, p, q, h[n].key);
    LinkedOnNodes(h, n, i, p, q);
    TurnLevels(cmp, h, h', n, i, p, q);
    assert Spliced(h', n, i + 1, 0) == Spliced(h', n, i + 1, 0);
    BackPointersKept(cmp, h, h', n, i, p, q);
    TurnGaps(cmp, h, h', n, i, prev, next);
    TurnTowers(h, h', n, i, p, q);
  }

  lemma TurnTowers(h: Heap, h': Heap, n: nat, i: nat, p: nat, q: nat)
    requires TowersOk(h) && n in h && n != HEAD && n != p && q != HEAD
    requires HasLevel(h, n, i) && HasLevel(h, p, i) && (q != 0 ==> q in h)
    requires h' == LinkedOn(h, n, i, p, q)
    ensures TowersOk(h')
  {
    LinkedOnNodes(h, n, i, p, q);
  }

  lemma TurnLevels(cmp: Comparator, h: Heap, h': Heap, n: nat, i: nat, p: nat, q: nat)
    requires TotalOrder(cmp) && Linking(cmp, h, n, i) && i <= h[n].height && i < MAX_HEIGHT
    requires Gap(cmp, h, OnLevel(h, i) - {n}, i, p, q, h[n].key) && HasLevel(h, n, i)
    requires h' == LinkedOn(h, n, i, p, q)
    ensures LevelsSpliced(cmp, h', n, i + 1)
  {
    var i' := i + 1;
    forall j | 0 <= j < MAX_HEIGHT ensures LevelOk(cmp, h', Spliced(h', n, i', j), j) {
      if j == i {
        ThisLevelLinked(cmp, h, h', n, i, p, q);
      } else {
        OtherLevelKept(cmp, h, h', n, i, p, q, j);
      }
    }
  }

  lemma TurnGaps(cmp: Comparator, h: Heap, h': Heap, n: nat, i: nat, prev: seq<nat>, next: seq<nat>)
    requires n in h && Gaps(cmp, h, n, i, prev, next)
    requires HasLevel(h, n, i) && i < |prev| && HasLevel(h, prev[i], i) && (next[i] != 0 ==> next[i] in h)
             && n != prev[i]
    requires h' == LinkedOn(h, n, i, prev[i], next[i])
    ensures n in h' && Gaps(cmp, h', n, i + 1, prev, next)
  {
    LinkedOnNodes(h, n, i, prev[i], next[i]);
    forall j | i + 1 <= j < MAX_HEIGHT && j <= h'[n].height
      ensures Gap(cmp, h', OnLevel(h', j) - {n}, j, prev[j], next[j], h'[n].key)
    {
      SameLevels(h, h', j);
      assert Gap(cmp, h, OnLevel(h, j) - {n}, j, prev[j], next[j], h[n].key);
      assert Next(h', prev[j], j) == Next(h, prev[j], j);
    }
  }

  /** A node just allocated and not yet linked. */
  lemma StartLinking(cmp: Comparator, h: Heap, height: nat, n: nat, node: Node, prev: seq<nat>, next: seq<nat>)
    requires Settled(cmp, h, height) && n !in h && n != 0 && |node.tower| == node.height + 1 <= MAX_HEIGHT
    requires |prev| == |next| == MAX_HEIGHT + 1
    requires forall j {:trigger prev[j]} :: 0 <= j < MAX_HEIGHT ==>
             Gap(cmp, h, OnLevel(h, j), j, prev[j], next[j], node.key)
    ensures Linking(cmp, h[n := node], n, 0) && Gaps(cmp, h[n := node], n, 0, prev, next)
  {
    var h' := h[n := node];
    forall j | 0 <= j < MAX_HEIGHT ensures OnLevel(h', j) - {n} == OnLevel(h, j) && LevelOk(cmp, h', OnLevel(h, j), j) {
      LevelOf(cmp, h, height, j);
      LevelFrame(cmp, h, h', OnLevel(h, j), j);
    }
    forall j | 0 <= j < MAX_HEIGHT && j <= h'[n].height
      ensures Gap(cmp, h', OnLevel(h', j) - {n}, j, prev[j], next[j], h'[n].key)
    {
      assert Gap(cmp, h, OnLevel(h, j), j, prev[j], next[j], node.key);
    }
    assert forall x {:trigger Next(h', x, 0)} :: x in OnLevel(h, 0) ==> Next(h', x, 0) == Next(h, x, 0);
  }

  /** A node linked on all its levels. */
  lemma DoneLinking(cmp: Comparator, h: Heap, n: nat, height: nat)
    requires n in h && Linking(cmp, h, n, h[n].height + 1) && HeightsBounded(h, height) && height < MAX_HEIGHT
    ensures Settled(cmp, h, height)
  {
    forall i | 0 <= i < MAX_HEIGHT ensures LevelOk(cmp, h, OnLevel(h, i), i) {
      assert Spliced(h, n, h[n].height + 1, i) == OnLevel(h, i);
    }
  }

  lemma StoredKept(h: Heap, h': Heap)
    requires DistinctKeys(h, OnLevel(h, 0)) && SameNodes(h, h')
    ensures DistinctKeys(h', OnLevel(h', 0)) && Stored(h') == Stored(h)
  {
    SameLevels(h, h', 0);
    hide OnLevel, DistinctKeys, Contents;
    assert EntriesAgree(h, h', OnLevel(h, 0)) by { LevelZeroIsAll(h); }
    ContentsFrame(h, h', OnLevel(h, 0));
  }

  lemma LevelZeroIsAll(h: Heap)
    ensures OnLevel(h, 0) == h.Keys
  {
  }

  lemma StoredGains(h: Heap, n: nat, node: Node)
    requires DistinctKeys(h, OnLevel(h, 0)) && n !in h && n != HEAD && node.key !in Stored(h)
    ensures DistinctKeys(h[n := node], OnLevel(h[n := node], 0))
            && Stored(h[n := node]) == Stored(h)[node.key := node.value]
  {
    var h1, l := h[n := node], OnLevel(h, 0);
    LevelZeroIsAll(h);
    LevelZeroIsAll(h1);
    assert h1.Keys == l + {n};
    hide OnLevel, Contents;
    ContentsFrame(h, h1, l);
    forall x | x in l && x != HEAD ensures h1[x].key != node.key {
      assert h[x].key in Contents(h, l);
    }
    ContentsAdd(h1, l, n);
  }

  lemma LinkedContents(h: Heap, n: nat, node: Node, h': Heap)
    requires DistinctKeys(h, OnLevel(h, 0)) && n !in h && n != HEAD && node.key !in Stored(h)
    requires SameNodes(h[n := node], h')
    ensures DistinctKeys(h', OnLevel(h', 0)) && Stored(h') == Stored(h)[node.key := node.value]
  {
    StoredGains(h, n, node);
    StoredKept(h[n := node], h');
  }

  /** What the next turn of the linking loop needs. */
  lemma GapsAt(cmp: Comparator, h: Heap, n: nat, i: nat, prev: seq<nat>, next: seq<nat>)
    requires Linking(cmp, h, n, i) && n in h && Gaps(cmp, h, n, i, prev, next) && i <= h[n].height && i < MAX_HEIGHT
    ensures i < |prev| && i < |next| && prev[i] != 0
    ensures HasLevel(h, n, i) && HasLevel(h, prev[i], i) && (next[i] != 0 ==> next[i] in h)
  {
    assert Gap(cmp, h, OnLevel(h, i) - {n}, i, prev[i], next[i], h[n].key);
    assert |h[n].tower| == h[n].height + 1;
  }

  lemma LinkedHeights(h: Heap, height: nat, n: nat, node: Node, h': Heap, height': nat)
    requires HeightsBounded(h, height) && SameNodes(h[n := node], h')
    requires height <= height' && node.height <= height'
    ensures HeightsBounded(h', height')
  {
    assert forall x {:trigger h'[x]} :: x in h' && x != n ==> x in h && h'[x].height == h[x].height;
  }
}
