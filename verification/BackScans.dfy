/** Iterating backwards while writers are at work. */
module BackScans {
  import opened ByteStrings
  import opened Comparators
  import opened Levels
  import opened Protocol
  import opened ProtocolInvariant
  import opened ProtocolSteps
  import opened ProtocolPutSteps
  import opened ProtocolRuns
  import opened ProtocolTheorems
  import opened ProtocolBacks
  import opened Scans
  import ListShape

  // -------------------- a claiming node's own link --------------------

  /** The node is allocated and its level-0 link is not stored yet. */
  predicate Linkless(op: Op) {
    op.call.Put? && (op.pc.StoreHeight? || op.pc.BackOwn? || op.pc.BackNext? || op.pc == StoreNext(0))
  }

  ghost predicate LinkStillZero(m: Memory, op: Op) {
    Linkless(op) ==> HasLevel(m.heap, op.node, 0) && Next(m.heap, op.node, 0) == 0
  }

  ghost predicate LinksStillZero(s: State) {
    forall o {:trigger s.ops[o]} :: o in s.ops ==> LinkStillZero(s.mem, s.ops[o])
  }

  lemma AllocatesLinkless(s: State, o: nat, current: nat)
    requires o in s.ops && !s.concurrent && s.ops[o].call.Put? && s.ops[o].pc == AllocCas(current)
    ensures var s' := StepAllocCas(s, o, current); o in s'.ops && LinkStillZero(s'.mem, s'.ops[o])
  {
  }

  lemma StaysLinkless(s: State, o: nat)
    requires o in s.ops && !s.concurrent && Linkless(s.ops[o]) && LinkStillZero(s.mem, s.ops[o])
    ensures s.ops[o].pc.StoreHeight? ==> LinkStillZero(StepStoreHeight(s, o).mem, StepStoreHeight(s, o).ops[o])
    ensures s.ops[o].pc.BackOwn? ==> LinkStillZero(StepBackOwn(s, o).mem, StepBackOwn(s, o).ops[o])
    ensures s.ops[o].pc.BackNext? ==> LinkStillZero(StepBackNext(s, o).mem, StepBackNext(s, o).ops[o])
  {
  }

  lemma SearchesLinkless(cmp: Comparator, s: State, o: nat, level: nat, x: nat)
    requires o in s.ops && s.ops[o].call.Put?
    ensures !Linkless(StepReadHeight(s, o).ops[o]) && !Linkless(StepAllocLoad(s, o).ops[o])
    ensures !Linkless(StepSearch(cmp, s, o, level, x).ops[o])
  {
  }

  lemma LinksItself(s: State, o: nat, level: nat)
    requires o in s.ops && !s.concurrent && s.ops[o].call.Put?
    ensures !Linkless(StepStoreNext(s, o, level).ops[o]) && !Linkless(StepSwingPrev(s, o, level).ops[o])
  {
  }

  /** A single writer's step keeps its unstored link at 0. */
  lemma OwnLinkStaysZero(cmp: Comparator, s: State, o: nat, spurious: bool)
    requires MayStep(cmp, s, o) && !s.concurrent && s.ops[o].call.Put? && Writing(s.ops[o])
             && LinkStillZero(s.mem, s.ops[o])
    ensures var s' := Advance(cmp, s, o, spurious); o in s'.ops && LinkStillZero(s'.mem, s'.ops[o])
  {
    OthersOrItself(cmp, s, o, spurious);
    hide MemoryOk, TotalOrder, Budgets, Splices, Standing, Owns, ProtocolInvariant.Linking;
    hide StepReadHeight, StepSearch, StepAllocLoad, StepAllocCas, StepStoreHeight, StepBackOwn, StepBackNext;
    hide StepStoreNext, StepSwingPrev;
    match s.ops[o].pc
    case ReadHeight => SearchesLinkless(cmp, s, o, 0, 0);
    case Search(level, x) => SearchesLinkless(cmp, s, o, level, x);
    case AllocLoad => SearchesLinkless(cmp, s, o, 0, 0);
    case AllocCas(current) => AllocatesLinkless(s, o, current);
    case StoreHeight => StaysLinkless(s, o);
    case BackOwn => StaysLinkless(s, o);
    case BackNext => StaysLinkless(s, o);
    case StoreNext(level) => LinksItself(s, o, level);
    case SwingPrev(level) => LinksItself(s, o, level);
  }

  lemma OthersOrItself(cmp: Comparator, s: State, o: nat, spurious: bool)
    requires MayStep(cmp, s, o) && o in s.ops
    ensures var s' := Advance(cmp, s, o, spurious);
            && o in s'.ops && s'.ops == s.ops[o := s'.ops[o]]
            && (!Writing(s.ops[o]) ==> s'.mem == s.mem && !Writing(s'.ops[o]))
  {
    hide MayStep, Advance, GoodStep;
    AnyStep(cmp, s, o, spurious);
    if Advance(cmp, s, o, spurious) != s {
      StepFacts(cmp, s, Advance(cmp, s, o, spurious), o);
    }
  }

  lemma IdleIsLinked(op: Op)
    requires !Writing(op)
    ensures !Linkless(op)
  {
  }

  lemma GoKeepsLinksZero(cmp: Comparator, s: State, o: nat, spurious: bool)
    requires TotalOrder(cmp) && Inv(cmp, s) && !s.concurrent && LinksStillZero(s) && o in s.ops
    ensures LinksStillZero(Advance(cmp, s, o, spurious))
  {
    hide TotalOrder, Inv, Advance, MayStep, Writing, Linkless;
    var s' := Advance(cmp, s, o, spurious);
    InvMayStep(cmp, s, o);
    OthersOrItself(cmp, s, o, spurious);
    assert LinkStillZero(s.mem, s.ops[o]);
    if Writing(s.ops[o]) {
      WritingIsPut(cmp, s, o);
      LoneWriter(cmp, s, o);
      OwnLinkStaysZero(cmp, s, o, spurious);
      forall p | p in s'.ops && p != o ensures LinkStillZero(s'.mem, s'.ops[p]) {
        IdleIsLinked(s.ops[p]);
      }
    } else {
      IdleIsLinked(s'.ops[o]);
      forall p | p in s'.ops && p != o ensures LinkStillZero(s'.mem, s'.ops[p]) {
        assert LinkStillZero(s.mem, s.ops[p]);
      }
    }
  }

  lemma {:induction false} RunLinksZero(cmp: Comparator, capacity: nat, acts: seq<Action>)
    requires TotalOrder(cmp) && capacity >= 192
    ensures LinksStillZero(Run(cmp, capacity, false, acts))
  {
    if acts != [] {
      var front, a := acts[..|acts| - 1], acts[|acts| - 1];
      RunLinksZero(cmp, capacity, front);
      RunInv(cmp, capacity, false, front);
      RunBacks(cmp, capacity, front);
      hide TotalOrder, Inv, BackInv, Advance;
      var s := Run(cmp, capacity, false, front);
      if a.Go? && a.o in s.ops {
        GoKeepsLinksZero(cmp, s, a.o, a.spurious);
      }
    }
  }

  /** A put that has claimed `x` and not yet stored its own node's level-0 link. */
  ghost predicate CutsOff(s: State, x: nat) {
    exists o {:trigger s.ops[o]} :: o in s.ops && s.ops[o].call.Put? && s.ops[o].pc == StoreNext(0)
      && At(s.ops[o].next, 0) == x
  }

  /** At every moment of every single-writer run, the node that a stored node's back pointer leads to links back to it,
      unless a put stands right after claiming the stored node: then that link is 0. So `prev` followed by `next`
      returns to where it was, or ends the iteration in the middle of the list. (Where the back pointer leads to the
      head, `prev` itself ends the iteration.) */
  lemma BackAndForth(cmp: Comparator, capacity: nat, acts: seq<Action>, x: nat)
    requires TotalOrder(cmp) && capacity >= 192
    requires var m := Run(cmp, capacity, false, acts).mem; 0 < |m.linked| && x in m.linked[0] && x != HEAD
    ensures var s := Run(cmp, capacity, false, acts);
            && x in s.mem.heap && HasLevel(s.mem.heap, s.mem.heap[x].prev, 0)
            && Next(s.mem.heap, s.mem.heap[x].prev, 0) == if CutsOff(s, x) then 0 else x
  {
    var p := PrevIsPredecessorIff(cmp, capacity, acts, x);
    RunInv(cmp, capacity, false, acts);
    RunBacks(cmp, capacity, acts);
    RunLinksZero(cmp, capacity, acts);
    hide Run, TotalOrder, Inv, BackInv;
    var s := Run(cmp, capacity, false, acts);
    if EarlyBack(s, x) {
      var o :| o in s.ops && Swinging(s.ops[o]) && At(s.ops[o].next, 0) == x;
      ClaimedLink(cmp, s, o, x);
    } else {
      assert !CutsOff(s, x) by {
        hide HasLevel, Next;
      }
    }
  }

  lemma ClaimedLink(cmp: Comparator, s: State, o: nat, x: nat)
    requires Inv(cmp, s) && !s.concurrent && BackInv(s) && LinksStillZero(s)
    requires o in s.ops && Swinging(s.ops[o]) && At(s.ops[o].next, 0) == x && x != 0 && x in s.mem.heap
    ensures s.mem.heap[x].prev == s.ops[o].node && HasLevel(s.mem.heap, s.ops[o].node, 0)
    ensures Next(s.mem.heap, s.ops[o].node, 0) == if CutsOff(s, x) then 0 else x
  {
    var op := s.ops[o];
    assert OwnBacks(s.mem, op) && LinkStillZero(s.mem, op);
    SwingersLink(cmp, s, o);
    SwingersAreWriters(cmp, s, o);
    hide Inv, BackInv, LinksStillZero;
  }

  lemma SwingersLink(cmp: Comparator, s: State, o: nat)
    requires Inv(cmp, s) && !s.concurrent && o in s.ops && Swinging(s.ops[o])
    ensures HasLevel(s.mem.heap, s.ops[o].node, 0)
    ensures s.ops[o].pc == SwingPrev(0) ==> Next(s.mem.heap, s.ops[o].node, 0) == At(s.ops[o].next, 0)
  {
    hide MemoryOk, LogOk, Splices, Budget;
    assert OpOk(cmp, s.concurrent, s.mem, s.ops[o]);
    OwnFacts(s.mem, s.ops[o], 0);
  }

  lemma SwingersAreWriters(cmp: Comparator, s: State, o: nat)
    requires Inv(cmp, s) && !s.concurrent && o in s.ops && Swinging(s.ops[o])
    ensures forall p :: p in s.ops && p != o ==> !Swinging(s.ops[p])
  {
    LoneWriter(cmp, s, o);
    hide Inv;
  }

  // -------------------- the chain of back pointers --------------------

  /** The nodes that back pointers can lead to from a stored node: those stored, and one claiming node. */
  ghost function Claimers(s: State): set<nat> {
    set o | o in s.ops && Swinging(s.ops[o]) && At(s.ops[o].next, 0) != 0 :: s.ops[o].node
  }

  ghost function BackNodes(s: State): set<nat> {
    (if 0 < |s.mem.linked| then s.mem.linked[0] else {}) + Claimers(s)
  }

  /** Back pointers stay among `b`, lead to smaller keys, and skip nobody. */
  ghost predicate BackChain(cmp: Comparator, h: Heap, b: set<nat>) {
    && HEAD in b && (forall x {:trigger x in b} :: x in b ==> x in h)
    && (forall y {:trigger h[y].prev} :: y in b && y != HEAD ==> h[y].prev in b && Before(cmp, h, h[y].prev, y))
    && (forall y, z {:trigger h[y].prev, z in b} :: y in b && z in b && y != HEAD && Before(cmp, h, z, y) ==>
          z == h[y].prev || Before(cmp, h, z, h[y].prev))
  }

  /** With every back pointer at its predecessor, they chain the level. */
  lemma QuietChain(cmp: Comparator, h: Heap, l: set<nat>)
    requires TotalOrder(cmp) && LevelOk(cmp, h, l, 0)
    requires forall x {:trigger Next(h, x, 0)} :: x in l && Next(h, x, 0) != 0 ==>
               Next(h, x, 0) in h && h[Next(h, x, 0)].prev == x
    ensures BackChain(cmp, h, l)
  {
    forall y | y in l && y != HEAD
      ensures h[y].prev in l && Before(cmp, h, h[y].prev, y)
      ensures forall z :: z in l && Before(cmp, h, z, y) ==> z == h[y].prev || Before(cmp, h, z, h[y].prev)
    {
      var p := ListShape.PredecessorFrom(cmp, h, l, HEAD, y);
      forall z | z in l && Before(cmp, h, z, y) ensures z == p || Before(cmp, h, z, p) {
        NoneBetween(cmp, h, l, p, y, z);
      }
    }
  }

  /** A node before `y` is at or before its predecessor. */
  lemma NoneBetween(cmp: Comparator, h: Heap, l: set<nat>, p: nat, y: nat, z: nat)
    requires TotalOrder(cmp) && LevelOk(cmp, h, l, 0) && p in l && y in l && z in l
    requires Next(h, p, 0) == y && y != 0 && Before(cmp, h, z, y)
    ensures z == p || Before(cmp, h, z, p)
  {
    assert Before(cmp, h, p, y);
    if p == HEAD {
      assert Before(cmp, h, HEAD, z) || z == HEAD;
    } else {
      assert z != p && z != HEAD ==> h[z].key != h[p].key;
    }
  }

  /** A put that has claimed its successor. */
  ghost predicate Claim(cmp: Comparator, h: Heap, l: set<nat>, n: nat, p: nat, q: nat) {
    && LevelOk(cmp, h, l, 0)
    && n in h && n !in l && n != 0 && n != HEAD && p in l && q in l && q != 0
    && Next(h, p, 0) == q && Before(cmp, h, p, n) && Before(cmp, h, n, q)
    && h[n].prev == p && h[q].prev == n
  }

  /** With one successor claimed, they chain the level and the claiming node. */
  lemma ClaimedChain(cmp: Comparator, h: Heap, l: set<nat>, n: nat, p: nat, q: nat)
    requires TotalOrder(cmp) && Claim(cmp, h, l, n, p, q)
    requires forall x {:trigger Next(h, x, 0)} :: x in l && Next(h, x, 0) != 0 && x != p ==>
               Next(h, x, 0) in h && h[Next(h, x, 0)].prev == x
    ensures BackChain(cmp, h, l + {n})
  {
    var b := l + {n};
    forall y | y in b && y != HEAD
      ensures h[y].prev in b && Before(cmp, h, h[y].prev, y)
      ensures forall z :: z in b && Before(cmp, h, z, y) ==> z == h[y].prev || Before(cmp, h, z, h[y].prev)
    {
      ClaimedBack(cmp, h, l, n, p, q, y);
      forall z | z in b && Before(cmp, h, z, y) ensures z == h[y].prev || Before(cmp, h, z, h[y].prev) {
        ClaimedNoneBetween(cmp, h, l, n, p, q, y, z);
      }
    }
  }

  lemma ClaimedBack(cmp: Comparator, h: Heap, l: set<nat>, n: nat, p: nat, q: nat, y: nat)
    requires TotalOrder(cmp) && Claim(cmp, h, l, n, p, q) && y in l + {n} && y != HEAD
    requires forall x {:trigger Next(h, x, 0)} :: x in l && Next(h, x, 0) != 0 && x != p ==>
               Next(h, x, 0) in h && h[Next(h, x, 0)].prev == x
    ensures y in h && h[y].prev in l + {n} && Before(cmp, h, h[y].prev, y)
    ensures y != n && y != q ==> h[y].prev in l && Next(h, h[y].prev, 0) == y
  {
    if y != n && y != q {
      var x := ListShape.PredecessorFrom(cmp, h, l, HEAD, y);
      assert x != p;
    }
  }

  lemma ClaimedNoneBetween(cmp: Comparator, h: Heap, l: set<nat>, n: nat, p: nat, q: nat, y: nat, z: nat)
    requires TotalOrder(cmp) && Claim(cmp, h, l, n, p, q) && y in l + {n} && y != HEAD && z in l + {n}
    requires y in h && h[y].prev in l + {n} && Before(cmp, h, h[y].prev, y) && Before(cmp, h, z, y)
    requires y != n && y != q ==> h[y].prev in l && Next(h, h[y].prev, 0) == y
    ensures z == h[y].prev || Before(cmp, h, z, h[y].prev)
  {
    if y == q {
      if z != n {
        NoneBetween(cmp, h, l, p, q, z);
      }
    } else if y == n {
      NoneBetween(cmp, h, l, p, q, z);
    } else if z != n {
      NoneBetween(cmp, h, l, h[y].prev, y, z);
    } else {
      QComesFirst(cmp, h, l, n, p, q, y);
      NoneBetween(cmp, h, l, h[y].prev, y, q);
    }
  }

  /** A stored node behind the claiming one is its successor or behind that. */
  lemma QComesFirst(cmp: Comparator, h: Heap, l: set<nat>, n: nat, p: nat, q: nat, y: nat)
    requires TotalOrder(cmp) && Claim(cmp, h, l, n, p, q) && y in l && Before(cmp, h, n, y)
    ensures y == q || Before(cmp, h, q, y)
  {
    assert Before(cmp, h, p, y);
    assert Next(h, p, 0) == q;
  }

  // -------------------- in every state --------------------

  ghost predicate Claims(op: Op) {
    Swinging(op) && At(op.next, 0) != 0
  }

  lemma OneClaimer(cmp: Comparator, s: State, o: nat)
    requires Inv(cmp, s) && !s.concurrent && o in s.ops && Claims(s.ops[o])
    ensures Claimers(s) == {s.ops[o].node}
  {
    SwingersAreWriters(cmp, s, o);
    hide Inv, Swinging;
    assert s.ops[o].node in Claimers(s);
  }

  lemma ClaimHolds(cmp: Comparator, s: State, o: nat)
    requires TotalOrder(cmp) && Inv(cmp, s) && !s.concurrent && BackInv(s) && o in s.ops && Claims(s.ops[o])
    ensures 0 < |s.mem.linked|
    ensures Claim(cmp, s.mem.heap, s.mem.linked[0], s.ops[o].node, At(s.ops[o].prev, 0), At(s.ops[o].next, 0))
  {
    assert OwnBacks(s.mem, s.ops[o]);
    InvLevelZero(cmp, s);
    ClaimPlace(cmp, s, o);
    hide Inv, BackInv, LevelOk;
  }

  lemma ClaimPlace(cmp: Comparator, s: State, o: nat)
    requires TotalOrder(cmp) && Inv(cmp, s) && !s.concurrent && o in s.ops && Claims(s.ops[o])
    ensures 0 < |s.mem.linked|
    ensures var m, n, p, q := s.mem, s.ops[o].node, At(s.ops[o].prev, 0), At(s.ops[o].next, 0);
            && n in m.heap && n !in m.linked[0] && n != 0 && n != HEAD && p in m.linked[0] && q in m.linked[0]
            && HasLevel(m.heap, p, 0) && q in m.heap && Next(m.heap, p, 0) == q
            && Before(cmp, m.heap, p, n) && Before(cmp, m.heap, n, q)
  {
    var m, op := s.mem, s.ops[o];
    hide LogOk, MemoryOk, Splices, Budget, TotalOrder;
    assert OpOk(cmp, s.concurrent, m, op);
    LinkingPlace(cmp, m, op);
    hide Inv, OpOk;
    FlipKeys(cmp, m.heap[At(op.next, 0)].key, op.call.key);
  }

  lemma FlipKeys(cmp: Comparator, a: Bytes, b: Bytes)
    requires TotalOrder(cmp) && cmp(a, b) == Greater
    ensures cmp(b, a) == Less
  {
  }

  lemma LinkingPlace(cmp: Comparator, m: Memory, op: Op)
    requires op.call.Put? && ProtocolInvariant.Linking(cmp, false, m, op, 0, 0)
    ensures LinkingFacts(m, op, 0) && op.node in m.heap && op.node != HEAD && m.heap[op.node].key == op.call.key
    ensures BeforeKey(cmp, m.heap, op.prev[0], op.call.key)
    ensures op.next[0] != 0 ==> op.next[0] in m.linked[0] && op.next[0] in m.heap
                                && AfterKey(cmp, m.heap, op.next[0], op.call.key)
  {
    LinkingKnows(cmp, m, op, 0);
    assert SpliceOk(cmp, false, m, op, 0);
  }

  lemma BackNodesChain(cmp: Comparator, s: State)
    requires TotalOrder(cmp) && Inv(cmp, s) && !s.concurrent && BackInv(s)
    ensures 0 < |s.mem.linked| && BackChain(cmp, s.mem.heap, BackNodes(s))
  {
    InvLevelZero(cmp, s);
    var h, l := s.mem.heap, s.mem.linked[0];
    if o :| o in s.ops && Claims(s.ops[o]) {
      OneClaimer(cmp, s, o);
      ClaimHolds(cmp, s, o);
      OthersPointBack(cmp, s, o);
      hide Inv, BackInv, TotalOrder, BackChain, Claim, Claimers;
      ClaimedChain(cmp, h, l, s.ops[o].node, At(s.ops[o].prev, 0), At(s.ops[o].next, 0));
    } else {
      AllPointBack(cmp, s);
      assert Claimers(s) == {};
      hide Inv, BackInv, TotalOrder, BackChain, Claimers;
      QuietChain(cmp, h, l);
      assert l + {} == l;
    }
  }

  lemma AllPointBack(cmp: Comparator, s: State)
    requires Inv(cmp, s) && BackInv(s) && forall o :: o in s.ops ==> !Claims(s.ops[o])
    requires 0 < |s.mem.linked| && LevelOk(cmp, s.mem.heap, s.mem.linked[0], 0)
    ensures forall x {:trigger Next(s.mem.heap, x, 0)} :: x in s.mem.linked[0] && Next(s.mem.heap, x, 0) != 0 ==>
              Next(s.mem.heap, x, 0) in s.mem.heap && s.mem.heap[Next(s.mem.heap, x, 0)].prev == x
  {
    hide Inv;
  }

  lemma OthersPointBack(cmp: Comparator, s: State, o: nat)
    requires TotalOrder(cmp) && Inv(cmp, s) && !s.concurrent && BackInv(s) && o in s.ops && Claims(s.ops[o])
    requires 0 < |s.mem.linked| && LevelOk(cmp, s.mem.heap, s.mem.linked[0], 0)
    requires At(s.ops[o].prev, 0) in s.mem.linked[0]
             && Next(s.mem.heap, At(s.ops[o].prev, 0), 0) == At(s.ops[o].next, 0)
    ensures forall x {:trigger Next(s.mem.heap, x, 0)} ::
              x in s.mem.linked[0] && Next(s.mem.heap, x, 0) != 0 && x != At(s.ops[o].prev, 0) ==>
                Next(s.mem.heap, x, 0) in s.mem.heap && s.mem.heap[Next(s.mem.heap, x, 0)].prev == x
  {
    SwingersAreWriters(cmp, s, o);
    hide Inv;
    var h, l, p := s.mem.heap, s.mem.linked[0], At(s.ops[o].prev, 0);
    forall x | x in l && Next(h, x, 0) != 0 && x != p ensures Next(h, x, 0) in h && h[Next(h, x, 0)].prev == x {
      ListShape.OnePredecessor(cmp, h, l, x, p);
    }
  }

  // -------------------- over time --------------------

  lemma StepBackNodes(cmp: Comparator, s: State, o: nat, spurious: bool)
    requires TotalOrder(cmp) && Inv(cmp, s) && !s.concurrent && o in s.ops
    ensures Claimers(s) <= BackNodes(Advance(cmp, s, o, spurious))
  {
    hide TotalOrder, Inv, Advance, MayStep, Swinging;
    InvMayStep(cmp, s, o);
    OthersOrItself(cmp, s, o, spurious);
    var s' := Advance(cmp, s, o, spurious);
    forall n | n in Claimers(s) ensures n in BackNodes(s') {
      var p :| p in s.ops && Swinging(s.ops[p]) && At(s.ops[p].next, 0) != 0 && s.ops[p].node == n;
      if p == o {
        ClaimerMoves(cmp, s, o, spurious);
      } else {
        assert s'.ops[p] == s.ops[p];
      }
    }
  }

  lemma ClaimerStores(s: State, o: nat)
    requires o in s.ops && Claims(s.ops[o]) && s.ops[o].pc == StoreNext(0) && HasLevel(s.mem.heap, s.ops[o].node, 0)
    ensures var s' := StepStoreNext(s, o, 0); o in s'.ops && s'.ops[o].node == s.ops[o].node && Claims(s'.ops[o])
  {
  }

  lemma ClaimerSwings(s: State, o: nat)
    requires !s.concurrent && o in s.ops && Claims(s.ops[o]) && s.ops[o].pc == SwingPrev(0)
    requires 0 < |s.mem.linked| && 0 < |s.mem.links| && HasLevel(s.mem.heap, At(s.ops[o].prev, 0), 0)
    ensures var s' := StepSwingPrev(s, o, 0);
            && o in s'.ops && s'.ops[o].node == s.ops[o].node
            && 0 < |s'.mem.linked| && s.ops[o].node in s'.mem.linked[0]
  {
  }

  /** A claiming put stores its node's link, and then links the node. */
  lemma ClaimerMoves(cmp: Comparator, s: State, o: nat, spurious: bool)
    requires TotalOrder(cmp) && Inv(cmp, s) && !s.concurrent && o in s.ops && Claims(s.ops[o])
    ensures var s' := Advance(cmp, s, o, spurious);
            && o in s'.ops && s'.ops[o].node == s.ops[o].node
            && (Claims(s'.ops[o]) || (0 < |s'.mem.linked| && s.ops[o].node in s'.mem.linked[0]))
  {
    hide Inv, TotalOrder, Before, StepStoreNext, StepSwingPrev;
    ClaimPlace(cmp, s, o);
    SwingersLink(cmp, s, o);
    LinksLevelZero(cmp, s);
    if s.ops[o].pc == SwingPrev(0) {
      ClaimerSwings(s, o);
    } else {
      ClaimerStores(s, o);
    }
  }

  lemma LinksLevelZero(cmp: Comparator, s: State)
    requires Inv(cmp, s)
    ensures 0 < |s.mem.linked| && 0 < |s.mem.links|
  {
    hide CallsOk, LogOk;
  }

  lemma RunBackNodes(cmp: Comparator, capacity: nat, acts: seq<Action>)
    requires TotalOrder(cmp) && capacity >= 192
    ensures var s := Run(cmp, capacity, false, acts);
            0 < |s.mem.linked| && s.mem.linked[0] <= BackNodes(s) && BackChain(cmp, s.mem.heap, BackNodes(s))
  {
    RunInv(cmp, capacity, false, acts);
    RunBacks(cmp, capacity, acts);
    hide Run, TotalOrder, Inv, BackInv, Claimers;
    BackNodesChain(cmp, Run(cmp, capacity, false, acts));
  }

  lemma {:induction false} BackNodesGrow(cmp: Comparator, capacity: nat, acts: seq<Action>, more: seq<Action>)
    requires TotalOrder(cmp) && capacity >= 192
    ensures var s, s' := Run(cmp, capacity, false, acts), Run(cmp, capacity, false, acts + more);
            Grown(s.mem.heap, BackNodes(s), s'.mem.heap, BackNodes(s'))
    decreases |more|
  {
    RunsOnlyGrow(cmp, capacity, false, acts, more);
    RunBackNodes(cmp, capacity, acts);
    RunBackNodes(cmp, capacity, acts + more);
    ClaimersGrow(cmp, capacity, acts, more);
    hide Run, TotalOrder, BackChain, Claimers;
    LaterGrown(Run(cmp, capacity, false, acts), Run(cmp, capacity, false, acts + more));
  }

  lemma LaterGrown(s: State, s': State)
    requires Later(s, s') && Claimers(s) <= BackNodes(s') && forall x :: x in BackNodes(s) ==> x in s.mem.heap
    ensures Grown(s.mem.heap, BackNodes(s), s'.mem.heap, BackNodes(s'))
  {
    hide Claimers;
  }

  lemma {:induction false} ClaimersGrow(cmp: Comparator, capacity: nat, acts: seq<Action>, more: seq<Action>)
    requires TotalOrder(cmp) && capacity >= 192
    ensures Claimers(Run(cmp, capacity, false, acts)) <= BackNodes(Run(cmp, capacity, false, acts + more))
    decreases |more|
  {
    hide Do, Run, TotalOrder, Inv, BackInv, Claimers, Later;
    if more == [] {
      assert acts + more == acts;
    } else {
      var front, a := more[..|more| - 1], more[|more| - 1];
      ClaimersGrow(cmp, capacity, acts, front);
      RunInv(cmp, capacity, false, acts + front);
      RunBacks(cmp, capacity, acts + front);
      LastLater(cmp, capacity, false, acts + front, a);
      RunSnoc(cmp, capacity, false, acts, more);
      DoBackNodes(cmp, Run(cmp, capacity, false, acts + front), a);
    }
  }

  lemma DoBackNodes(cmp: Comparator, s: State, a: Action)
    requires TotalOrder(cmp) && Inv(cmp, s) && !s.concurrent && Later(s, Do(cmp, s, a))
    ensures BackNodes(s) <= BackNodes(Do(cmp, s, a))
  {
    hide TotalOrder, Inv, Advance;
    var s' := Do(cmp, s, a);
    assert Claimers(s) <= BackNodes(s') by {
      if a.Go? && a.o in s.ops {
        StepBackNodes(cmp, s, a.o, a.spurious);
      } else {
        StartClaimers(cmp, s, a);
      }
    }
    hide Claimers, Do;
  }

  lemma StartClaimers(cmp: Comparator, s: State, a: Action)
    requires a.Start? || a.o !in s.ops
    ensures Claimers(s) <= Claimers(Do(cmp, s, a))
  {
    hide Swinging, MayStart;
    var s' := Do(cmp, s, a);
    forall n | n in Claimers(s) ensures n in Claimers(s') {
      var p :| p in s.ops && Swinging(s.ops[p]) && At(s.ops[p].next, 0) != 0 && s.ops[p].node == n;
      StartKeeps(cmp, s, a, p);
    }
  }

  lemma StartKeeps(cmp: Comparator, s: State, a: Action, p: nat)
    requires (a.Start? || a.o !in s.ops) && p in s.ops
    ensures p in Do(cmp, s, a).ops && Do(cmp, s, a).ops[p] == s.ops[p]
  {
  }

  // -------------------- traversals --------------------

  /** A full backward traversal of a single-writer list: `seek_to_last` found `xs[0]` at moment 0, and `prev` loaded the
      back pointer of `xs[k]` at moment k + 1, until it led to the head. */
  ghost predicate BackScan(hs: seq<Heap>, xs: seq<nat>) {
    && |hs| == |xs| + 1 && xs != []
    && HasLevel(hs[0], xs[0], 0) && Next(hs[0], xs[0], 0) == 0
    && forall k {:trigger xs[k]} :: 0 <= k < |xs| ==>
         && xs[k] != HEAD && xs[k] in hs[k + 1]
         && hs[k + 1][xs[k]].prev == if k < |xs| - 1 then xs[k + 1] else HEAD
  }

  ghost predicate ChainsAt(cmp: Comparator, hs: seq<Heap>, bs: seq<set<nat>>) {
    |hs| == |bs| && forall k {:trigger bs[k]} :: 0 <= k < |bs| ==> BackChain(cmp, hs[k], bs[k])
  }

  lemma ChainAt(cmp: Comparator, hs: seq<Heap>, bs: seq<set<nat>>, k: nat)
    requires ChainsAt(cmp, hs, bs) && k < |bs|
    ensures BackChain(cmp, hs[k], bs[k])
  {
    hide BackChain;
    assert bs[k] == bs[k];
  }

  lemma BackStep(hs: seq<Heap>, xs: seq<nat>, k: nat)
    requires BackScan(hs, xs) && k < |xs|
    ensures xs[k] != HEAD && xs[k] in hs[k + 1] && hs[k + 1][xs[k]].prev == if k < |xs| - 1 then xs[k + 1] else HEAD
  {
    assert xs[k] == xs[k];
  }

  lemma ChainStep(cmp: Comparator, h: Heap, b: set<nat>, y: nat)
    requires BackChain(cmp, h, b) && y in b && y != HEAD
    ensures y in h && h[y].prev in b && h[y].prev in h && Before(cmp, h, h[y].prev, y)
    ensures forall z :: z in b && z in h && Before(cmp, h, z, y) ==> z == h[y].prev || Before(cmp, h, z, h[y].prev)
  {
  }

  lemma {:induction false} BackVisits(cmp: Comparator, hs: seq<Heap>, bs: seq<set<nat>>, xs: seq<nat>, k: nat)
    requires Growing(hs, bs) && ChainsAt(cmp, hs, bs) && BackScan(hs, xs) && |hs| == |bs| == |xs| + 1 && k < |xs|
    requires xs[0] in bs[0]
    ensures xs[k] in bs[k + 1] && xs[k] in hs[k + 1]
    ensures k < |xs| - 1 ==> xs[k + 1] in bs[k + 1] && xs[k + 1] in hs[k + 1]
                             && Before(cmp, hs[k + 1], xs[k + 1], xs[k])
  {
    hide Growing, ChainsAt, BackScan, BackChain;
    if k > 0 {
      BackVisits(cmp, hs, bs, xs, k - 1);
    }
    GrownBetween(hs, bs, k, k + 1);
    ChainAt(cmp, hs, bs, k + 1);
    BackStep(hs, xs, k);
    ChainStep(cmp, hs[k + 1], bs[k + 1], xs[k]);
  }

  lemma {:induction false} BackVisitsDescend(cmp: Comparator, hs: seq<Heap>, bs: seq<set<nat>>, xs: seq<nat>,
      a: nat, b: nat)
    requires TotalOrder(cmp) && Growing(hs, bs) && ChainsAt(cmp, hs, bs) && BackScan(hs, xs)
    requires |hs| == |bs| == |xs| + 1 && a < b < |xs| && xs[0] in bs[0]
    ensures xs[a] in hs[|xs|] && xs[b] in hs[|xs|] && Before(cmp, hs[|xs|], xs[b], xs[a])
  {
    hide *;
    var h, c := hs[|xs|], bs[|xs|];
    BackVisits(cmp, hs, bs, xs, b - 1);
    GrownBetween(hs, bs, b, |xs|);
    GrownBefore(cmp, hs[b], bs[b], h, c, xs[b], xs[b - 1]);
    if a < b - 1 {
      BackVisitsDescend(cmp, hs, bs, xs, a, b - 1);
      BeforeTransitive(cmp, h, xs[b], xs[b - 1], xs[a]);
    }
  }

  /** A node there from the start is visited by step k or still to come. */
  lemma {:induction false} BackSkipsNobody(cmp: Comparator, hs: seq<Heap>, bs: seq<set<nat>>, xs: seq<nat>, y: nat,
      k: nat)
    requires TotalOrder(cmp) && Growing(hs, bs) && ChainsAt(cmp, hs, bs) && BackScan(hs, xs)
    requires |hs| == |bs| == |xs| + 1 && k < |xs| && xs[0] in bs[0] && y in bs[0]
    requires y in hs[0] && xs[0] in hs[0] && (y == xs[0] || Before(cmp, hs[0], y, xs[0]))
    ensures xs[k] in hs[k + 1] && y in hs[k + 1] && y in bs[k + 1]
    ensures y in xs[..k + 1] || Before(cmp, hs[k + 1], y, xs[k])
  {
    hide Growing, ChainsAt, BackScan, BackChain, TotalOrder, Grown;
    BackVisits(cmp, hs, bs, xs, k);
    StillThere(hs, bs, k + 1, y);
    StillThere(hs, bs, k, y);
    GrownBetween(hs, bs, k, k + 1);
    if k == 0 {
      assert xs[0] in xs[..1];
      if y != xs[0] {
        GrownBefore(cmp, hs[0], bs[0], hs[1], bs[1], y, xs[0]);
      }
    } else {
      BackSkipsNobody(cmp, hs, bs, xs, y, k - 1);
      BackVisits(cmp, hs, bs, xs, k - 1);
      assert xs[..k + 1] == xs[..k] + [xs[k]];
      if y !in xs[..k] && y != xs[k] {
        ChainAt(cmp, hs, bs, k);
        BackStep(hs, xs, k - 1);
        ChainStep(cmp, hs[k], bs[k], xs[k - 1]);
        GrownBefore(cmp, hs[k], bs[k], hs[k + 1], bs[k + 1], y, xs[k]);
      }
    }
  }

  /** `xs` is strictly descending, misses nobody in `first` and shows only nodes in `b`. */
  ghost predicate Shows(cmp: Comparator, first: set<nat>, h: Heap, b: set<nat>, xs: seq<nat>) {
    && (forall y :: y in first && y != HEAD ==> y in xs)
    && (forall x :: x in xs ==> x in b && x in h)
    && forall i, j {:trigger xs[i], xs[j]} :: 0 <= i < j < |xs| ==> Before(cmp, h, xs[j], xs[i])
  }

  lemma BackScanIsFaithful(cmp: Comparator, hs: seq<Heap>, bs: seq<set<nat>>, xs: seq<nat>, first: set<nat>)
    requires TotalOrder(cmp) && Growing(hs, bs) && ChainsAt(cmp, hs, bs) && BackScan(hs, xs) && |bs| == |hs|
    requires first <= bs[0] && xs[0] in first && LevelOk(cmp, hs[0], first, 0)
    ensures Shows(cmp, first, hs[|xs|], bs[|xs|], xs)
  {
    assert |hs| == |xs| + 1 && xs != [] && HasLevel(hs[0], xs[0], 0) && Next(hs[0], xs[0], 0) == 0;
    hide Growing, ChainsAt, BackScan, BackChain, TotalOrder, LevelOk;
    var last := |xs| - 1;
    forall x | x in xs ensures x in bs[|xs|] && x in hs[|xs|] {
      var k :| 0 <= k < |xs| && xs[k] == x;
      BackVisits(cmp, hs, bs, xs, k);
      GrownBetween(hs, bs, k + 1, |xs|);
    }
    forall i, j | 0 <= i < j < |xs| ensures Before(cmp, hs[|xs|], xs[j], xs[i]) {
      BackVisitsDescend(cmp, hs, bs, xs, i, j);
    }
    forall y | y in first && y != HEAD ensures y in xs {
      LastIsGreatest(cmp, hs[0], first, xs[0], y);
      BackReaches(cmp, hs, bs, xs, y);
    }
  }

  lemma BackReaches(cmp: Comparator, hs: seq<Heap>, bs: seq<set<nat>>, xs: seq<nat>, y: nat)
    requires TotalOrder(cmp) && Growing(hs, bs) && ChainsAt(cmp, hs, bs) && BackScan(hs, xs)
    requires |hs| == |bs| == |xs| + 1 && xs != [] && xs[0] in bs[0] && y in bs[0] && y != HEAD
    requires y in hs[0] && xs[0] in hs[0] && (y == xs[0] || Before(cmp, hs[0], y, xs[0]))
    ensures y in xs
  {
    hide Growing, ChainsAt, BackScan, BackChain, TotalOrder;
    var last := |xs| - 1;
    BackSkipsNobody(cmp, hs, bs, xs, y, last);
    assert xs[..last + 1] == xs;
    ChainAt(cmp, hs, bs, |xs|);
    BackVisits(cmp, hs, bs, xs, last);
    BackStep(hs, xs, last);
    ChainStep(cmp, hs[|xs|], bs[|xs|], xs[last]);
  }

  lemma LastIsGreatest(cmp: Comparator, h: Heap, l: set<nat>, x: nat, y: nat)
    requires TotalOrder(cmp) && LevelOk(cmp, h, l, 0) && x in l && y in l && Next(h, x, 0) == 0 && x != HEAD
    ensures x in h && y in h && (y == x || Before(cmp, h, y, x))
  {
    assert !Before(cmp, h, x, y);
    if y != HEAD && y != x {
      assert h[x].key != h[y].key;
    }
  }

  ghost function BackNodesAt(cmp: Comparator, capacity: nat, acts: seq<Action>, times: seq<nat>): seq<set<nat>>
    requires forall k :: 0 <= k < |times| ==> times[k] <= |acts|
  {
    seq(|times|, k requires 0 <= k < |times| => BackNodes(Run(cmp, capacity, false, acts[..times[k]])))
  }

  lemma BackMoments(cmp: Comparator, capacity: nat, acts: seq<Action>, times: seq<nat>)
    requires TotalOrder(cmp) && capacity >= 192
    requires forall k :: 0 <= k < |times| ==> times[k] <= |acts|
    requires forall i, j :: 0 <= i <= j < |times| ==> times[i] <= times[j]
    ensures var hs, bs := HeapsAt(cmp, capacity, false, acts, times), BackNodesAt(cmp, capacity, acts, times);
            |hs| == |bs| == |times| && Growing(hs, bs) && ChainsAt(cmp, hs, bs)
  {
    hide Run, TotalOrder, Grown, BackChain, BackNodes;
    var hs, bs := HeapsAt(cmp, capacity, false, acts, times), BackNodesAt(cmp, capacity, acts, times);
    forall k | 0 <= k < |bs| ensures BackChain(cmp, hs[k], bs[k]) {
      RunBackNodes(cmp, capacity, acts[..times[k]]);
    }
    forall i, j | 0 <= i <= j < |bs| ensures Grown(hs[i], bs[i], hs[j], bs[j]) {
      BackNodesGrow(cmp, capacity, acts[..times[i]], acts[times[i]..times[j]]);
      assert acts[..times[i]] + acts[times[i]..times[j]] == acts[..times[j]];
    }
  }

  /** `seek_to_last` and repeated `prev` on a single-writer list that is being written to, one atomic load each, at any
      moments of any run: strictly descending, no entry stored when it began is missed, and what it shows is stored when
      it ends, but for the node of a put that is about to link it. */
  lemma BackScansAreFaithful(cmp: Comparator, capacity: nat, acts: seq<Action>, times: seq<nat>, xs: seq<nat>)
    requires TotalOrder(cmp) && capacity >= 192 && times != []
    requires forall k :: 0 <= k < |times| ==> times[k] <= |acts|
    requires forall i, j :: 0 <= i <= j < |times| ==> times[i] <= times[j]
    requires BackScan(HeapsAt(cmp, capacity, false, acts, times), xs)
    requires var m := Run(cmp, capacity, false, acts[..times[0]]).mem; 0 < |m.linked| && xs[0] in m.linked[0]
    ensures var m := Run(cmp, capacity, false, acts[..times[0]]).mem;
            var s' := Run(cmp, capacity, false, acts[..times[|times| - 1]]);
            0 < |s'.mem.linked| && Shows(cmp, m.linked[0], s'.mem.heap, s'.mem.linked[0] + Claimers(s'), xs)
  {
    hide Run, TotalOrder, LevelOk, Growing, ChainsAt, Claimers, HeapsAt, BackNodesAt, BackChain, BackNodes, Shows;
    var hs, bs := HeapsAt(cmp, capacity, false, acts, times), BackNodesAt(cmp, capacity, acts, times);
    BackMoments(cmp, capacity, acts, times);
    assert |times| == |hs| == |xs| + 1;
    hide BackScan;
    MomentIs(cmp, capacity, acts, times, 0);
    MomentIs(cmp, capacity, acts, times, |times| - 1);
    RunBackNodes(cmp, capacity, acts[..times[0]]);
    RunBackNodes(cmp, capacity, acts[..times[|times| - 1]]);
    LevelZeroAt(cmp, capacity, false, acts[..times[0]]);
    BackScanIsFaithful(cmp, hs, bs, xs, Run(cmp, capacity, false, acts[..times[0]]).mem.linked[0]);
    StoredOrClaiming(Run(cmp, capacity, false, acts[..times[|times| - 1]]));
  }

  lemma MomentIs(cmp: Comparator, capacity: nat, acts: seq<Action>, times: seq<nat>, k: nat)
    requires (forall k :: 0 <= k < |times| ==> times[k] <= |acts|) && k < |times|
    ensures var hs, bs := HeapsAt(cmp, capacity, false, acts, times), BackNodesAt(cmp, capacity, acts, times);
            var s := Run(cmp, capacity, false, acts[..times[k]]);
            |hs| == |bs| == |times| && hs[k] == s.mem.heap && bs[k] == BackNodes(s)
  {
    hide Run, BackNodes;
  }

  lemma StoredOrClaiming(s: State)
    requires 0 < |s.mem.linked|
    ensures BackNodes(s) == s.mem.linked[0] + Claimers(s)
  {
  }

  /** There is at most one such node, since there is one writer, and it is not stored yet. */
  lemma OneClaimerAtMost(cmp: Comparator, capacity: nat, acts: seq<Action>, x: nat, y: nat)
    requires TotalOrder(cmp) && capacity >= 192
    requires var s := Run(cmp, capacity, false, acts); x in Claimers(s) && y in Claimers(s)
    ensures var m := Run(cmp, capacity, false, acts).mem; x == y && 0 < |m.linked| && x !in m.linked[0]
  {
    RunInv(cmp, capacity, false, acts);
    RunBacks(cmp, capacity, acts);
    hide Run, TotalOrder, Inv, BackInv, Swinging;
    var s := Run(cmp, capacity, false, acts);
    var o :| o in s.ops && Swinging(s.ops[o]) && At(s.ops[o].next, 0) != 0 && s.ops[o].node == x;
    OneClaimer(cmp, s, o);
    ClaimerIsUnlinked(cmp, s, o);
  }
}
