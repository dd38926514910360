/** Back pointers in single-writer mode, at every moment of a put.

    A put stores its node's back pointer and its successor's before it links the node, so readers can see them early. */
module ProtocolBacks {
  import opened Comparators
  import opened Levels
  import opened Protocol
  import opened ProtocolInvariant
  import opened ProtocolEffects
  import opened ProtocolSteps
  import opened ProtocolPutSteps
  import opened ProtocolRuns
  import ListShape

  /** Both back pointers are stored, and the level-0 link to the node is still to come. */
  predicate Swinging(op: Op) {
    op.call.Put? && (op.pc == StoreNext(0) || op.pc == SwingPrev(0))
  }

  /** The node's own back pointer is stored. */
  predicate BackStored(op: Op) {
    op.call.Put? && (op.pc.BackNext? || Swinging(op))
  }

  /** A put stands between storing the back pointer of `x` and linking its own node before `x`. */
  ghost predicate EarlyBack(s: State, x: nat) {
    exists o {:trigger s.ops[o]} :: o in s.ops && Swinging(s.ops[o]) && At(s.ops[o].next, 0) == x
  }

  ghost predicate OwnBacks(m: Memory, op: Op) {
    BackStored(op) ==>
      && op.node in m.heap && m.heap[op.node].prev == At(op.prev, 0)
      && (Swinging(op) && At(op.next, 0) != 0 ==> At(op.next, 0) in m.heap && m.heap[At(op.next, 0)].prev == op.node)
  }

  /** Back pointers of level 0 as the writer `op` leaves them. */
  ghost predicate Backs(m: Memory, op: Op) {
    && 0 < |m.linked| && OwnBacks(m, op)
    && forall x {:trigger Next(m.heap, x, 0)} ::
      x in m.linked[0] && HasLevel(m.heap, x, 0) && Next(m.heap, x, 0) != 0 ==>
         && Next(m.heap, x, 0) in m.heap
         && (m.heap[Next(m.heap, x, 0)].prev == x || (Swinging(op) && At(op.next, 0) == Next(m.heap, x, 0)))
  }

  /** Every level-0 successor points back, but for those a put has already claimed. */
  ghost predicate BackInv(s: State) {
    && 0 < |s.mem.linked|
    && (forall o {:trigger s.ops[o]} :: o in s.ops ==> OwnBacks(s.mem, s.ops[o]))
    && forall x {:trigger Next(s.mem.heap, x, 0)} ::
      x in s.mem.linked[0] && HasLevel(s.mem.heap, x, 0) && Next(s.mem.heap, x, 0) != 0 ==>
         && Next(s.mem.heap, x, 0) in s.mem.heap
         && (s.mem.heap[Next(s.mem.heap, x, 0)].prev == x || EarlyBack(s, Next(s.mem.heap, x, 0)))
  }

  // -------------------- one writer at a time --------------------

  lemma LoneWriter(cmp: Comparator, s: State, o: nat)
    requires Inv(cmp, s) && !s.concurrent && o in s.ops && Writing(s.ops[o])
    ensures forall p :: p in s.ops && p != o ==> !Writing(s.ops[p]) && !BackStored(s.ops[p])
  {
    hide MemoryOk, LogOk, OpOk;
    assert s.ops[o] == s.ops[o];
  }

  // -------------------- steps that leave level 0 and its back pointers alone --------------------

  ghost predicate SameBacks(m: Memory, m': Memory) {
    && 0 < |m.linked| && 0 < |m'.linked| && m'.linked[0] == m.linked[0]
    && (forall x {:trigger m.heap[x]} {:trigger m'.heap[x]} :: x in m.heap ==>
          x in m'.heap && m'.heap[x].prev == m.heap[x].prev)
    && (forall x {:trigger Next(m'.heap, x, 0)} :: x in m.linked[0] ==>
          HasLevel(m.heap, x, 0) && HasLevel(m'.heap, x, 0) && Next(m'.heap, x, 0) == Next(m.heap, x, 0))
  }

  lemma FrameBacks(m: Memory, m': Memory, op: Op, op': Op)
    requires Backs(m, op) && SameBacks(m, m')
    requires BackStored(op') ==> BackStored(op)
    requires op'.node == op.node || !BackStored(op')
    requires op'.prev == op.prev || !BackStored(op')
    requires op'.next == op.next || !BackStored(op')
    requires Swinging(op') <==> Swinging(op)
    ensures Backs(m', op')
  {
  }

  lemma WriterSees(s: State, o: nat)
    requires BackInv(s) && o in s.ops && forall p :: p in s.ops && p != o ==> !BackStored(s.ops[p])
    ensures Backs(s.mem, s.ops[o])
  {
    assert s.ops[o] == s.ops[o];
  }

  lemma WriterLeaves(s: State, o: nat)
    requires o in s.ops && Backs(s.mem, s.ops[o]) && forall p :: p in s.ops && p != o ==> !BackStored(s.ops[p])
    ensures BackInv(s)
  {
    forall p | p in s.ops ensures OwnBacks(s.mem, s.ops[p]) {
    }
    assert s.ops[o] == s.ops[o];
  }

  /** Reading, allocating and raising the height. */
  lemma PreparingStep(cmp: Comparator, s: State, o: nat, spurious: bool)
    requires !s.concurrent && o in s.ops && s.ops[o].call.Put?
    requires var pc := s.ops[o].pc; pc.ReadHeight? || pc.Search? || pc.AllocLoad? || pc.AllocCas? || pc.StoreHeight?
    ensures var s' := Advance(cmp, s, o, spurious);
            && o in s'.ops && !BackStored(s'.ops[o]) && s'.mem.linked == s.mem.linked
            && (s'.mem.heap == s.mem.heap || Allocates(s.mem, s'.mem))
  {
  }

  ghost predicate Allocates(m: Memory, m': Memory) {
    var x := OrHead(m.top); x in m'.heap && m'.heap == m.heap[x := m'.heap[x]]
  }

  lemma PreparingBacks(cmp: Comparator, m: Memory, m': Memory, op: Op, op': Op)
    requires MemoryOk(cmp, m) && Backs(m, op) && !BackStored(op) && !BackStored(op')
    requires m'.linked == m.linked && (m'.heap == m.heap || Allocates(m, m'))
    ensures Backs(m', op')
  {
    LevelZero(cmp, m);
    assert OrHead(m.top) !in m.heap by {
      assert forall x {:trigger m.heap[x]} :: x in m.heap ==> x < m.top by {
        TopIsFresh(m);
      }
    }
    hide TotalOrder, HeapOk, LevelsOk, HeightOk, OwnBacks;
    FrameBacks(m, m', op, op');
  }

  /** Storing the node's own back pointer: nobody links to it yet. */
  lemma OwnBackBacks(cmp: Comparator, m: Memory, op: Op, op': Op)
    requires MemoryOk(cmp, m) && Backs(m, op) && op.call.Put? && op.node in m.heap && op.node !in m.linked[0]
    requires op.pc == BackOwn && op' == op.(pc := if At(op.next, 0) != 0 then BackNext else StoreNext(0))
    ensures Backs(SetBack(m, op.node, At(op.prev, 0)), op')
  {
    LevelZero(cmp, m);
    hide TotalOrder, HeapOk, LevelsOk, HeightOk;
    var m' := SetBack(m, op.node, At(op.prev, 0));
    forall x | x in m'.linked[0] && HasLevel(m'.heap, x, 0) && Next(m'.heap, x, 0) != 0
      ensures Next(m'.heap, x, 0) in m'.heap && m'.heap[Next(m'.heap, x, 0)].prev == x
    {
      assert Next(m.heap, x, 0) in m.linked[0];
    }
  }

  /** Storing the successor's back pointer: from here until the node is linked it points at a node not yet there. */
  lemma NextBackBacks(cmp: Comparator, m: Memory, op: Op, op': Op)
    requires MemoryOk(cmp, m) && Backs(m, op) && op.call.Put? && op.node in m.heap
    requires op.pc == BackNext && At(op.next, 0) in m.heap && At(op.next, 0) != op.node
             && op' == op.(pc := StoreNext(0))
    ensures Backs(SetBack(m, At(op.next, 0), op.node), op')
  {
    LevelZero(cmp, m);
    hide TotalOrder, HeapOk, LevelsOk, HeightOk;
    var m' := SetBack(m, At(op.next, 0), op.node);
    forall x | x in m'.linked[0] && HasLevel(m'.heap, x, 0) && Next(m'.heap, x, 0) != 0
      ensures Next(m'.heap, x, 0) in m'.heap
      ensures m'.heap[Next(m'.heap, x, 0)].prev == x || At(op.next, 0) == Next(m'.heap, x, 0)
    {
      assert Next(m.heap, x, 0) == Next(m'.heap, x, 0);
    }
  }

  lemma SameLevelZero(cmp: Comparator, m: Memory, m': Memory)
    requires 0 < |m.linked| && 0 < |m'.linked| && LevelOk(cmp, m.heap, m.linked[0], 0) && m'.linked[0] == m.linked[0]
    requires forall x {:trigger m'.heap[x]} {:trigger m.heap[x]} :: x in m.heap ==>
               && x in m'.heap && m'.heap[x].prev == m.heap[x].prev && |m'.heap[x].tower| == |m.heap[x].tower|
               && (x in m.linked[0] && HasLevel(m.heap, x, 0) ==> m'.heap[x].tower[0] == m.heap[x].tower[0])
    ensures SameBacks(m, m')
  {
    forall x | x in m.linked[0]
      ensures HasLevel(m.heap, x, 0) && HasLevel(m'.heap, x, 0) && Next(m'.heap, x, 0) == Next(m.heap, x, 0)
    {
      assert m.heap[x] == m.heap[x];
    }
  }

  lemma OwnLinkBacks(cmp: Comparator, m: Memory, op: Op, op': Op, level: nat)
    requires MemoryOk(cmp, m) && Backs(m, op) && op.call.Put? && op.pc == StoreNext(level)
    requires HasLevel(m.heap, op.node, level) && op.node !in m.linked[level] && level < |m.linked|
    requires op' == op.(pc := SwingPrev(level))
    ensures Backs(SetOwnNext(m, op.node, level, At(op.next, level)), op')
  {
    LevelZero(cmp, m);
    hide TotalOrder, HeapOk, LevelsOk, HeightOk;
    var m' := SetOwnNext(m, op.node, level, At(op.next, level));
    SameLevelZero(cmp, m, m');
    FrameBacks(m, m', op, op');
  }

  /** Linking on a higher level. */
  lemma UpperLinkBacks(cmp: Comparator, m: Memory, op: Op, op': Op, level: nat, p: nat)
    requires MemoryOk(cmp, m) && Backs(m, op) && op.call.Put? && op.pc == SwingPrev(level) && level > 0
    requires HasLevel(m.heap, p, level) && level < |m.linked| && level < |m.links| && !BackStored(op')
    ensures Backs(Link(m, p, level, op.node), op')
  {
    LevelZero(cmp, m);
    hide TotalOrder, HeapOk, LevelsOk, HeightOk;
    var m' := Link(m, p, level, op.node);
    SameLevelZero(cmp, m, m');
    FrameBacks(m, m', op, op');
  }

  /** Linking on level 0 makes both early back pointers right. */
  lemma BottomLinkBacks(cmp: Comparator, m: Memory, op: Op, op': Op, p: nat)
    requires TotalOrder(cmp) && MemoryOk(cmp, m) && Backs(m, op) && op.call.Put? && op.pc == SwingPrev(0)
             && 0 < |m.links|
    requires p == At(op.prev, 0) && p in m.linked[0] && HasLevel(m.heap, p, 0) && HasLevel(m.heap, op.node, 0)
    requires op.node !in m.linked[0] && op.node != 0
    requires Next(m.heap, p, 0) == At(op.next, 0) == Next(m.heap, op.node, 0) && !BackStored(op')
    ensures Backs(Link(m, p, 0, op.node), op')
  {
    LevelZero(cmp, m);
    var m' := Link(m, p, 0, op.node);
    var n, q := op.node, At(op.next, 0);
    forall x | x in m'.linked[0] && HasLevel(m'.heap, x, 0) && Next(m'.heap, x, 0) != 0
      ensures Next(m'.heap, x, 0) in m'.heap && m'.heap[Next(m'.heap, x, 0)].prev == x
    {
      if x != n && x != p {
        assert Next(m'.heap, x, 0) == Next(m.heap, x, 0);
        ListShape.OnePredecessor(cmp, m.heap, m.linked[0], x, p);
      }
    }
  }

  // -------------------- every step of the writer --------------------

  /** What a put in the linking loop knows in single-writer mode. */
  ghost predicate LinkingFacts(m: Memory, op: Op, level: nat) {
    && level < |m.linked| && level < |m.links| && level < |op.prev| && level < |op.next|
    && HasLevel(m.heap, op.node, level) && op.node !in m.linked[level] && op.node != 0
    && op.prev[level] in m.linked[level] && HasLevel(m.heap, op.prev[level], level)
    && Next(m.heap, op.prev[level], level) == op.next[level]
    && (op.next[level] != 0 ==> op.next[level] in m.heap && op.next[level] != op.node)
  }

  lemma LinkingKnows(cmp: Comparator, m: Memory, op: Op, level: nat)
    requires op.call.Put? && ProtocolInvariant.Linking(cmp, false, m, op, level, level)
    ensures LinkingFacts(m, op, level)
  {
    OwnFacts(m, op, level);
    assert SpliceOk(cmp, false, m, op, level);
  }

  lemma BackOwnWrites(cmp: Comparator, s: State, o: nat)
    requires MayStep(cmp, s, o) && !s.concurrent && s.ops[o].call.Put? && s.ops[o].pc == BackOwn
             && Backs(s.mem, s.ops[o])
    ensures var s' := StepBackOwn(s, o); o in s'.ops && Backs(s'.mem, s'.ops[o])
  {
    hide Backs, MemoryOk, TotalOrder, Splices;
    LinkingKnows(cmp, s.mem, s.ops[o], 0);
    OwnBackBacks(cmp, s.mem, s.ops[o], StepBackOwn(s, o).ops[o]);
  }

  lemma BackNextWrites(cmp: Comparator, s: State, o: nat)
    requires MayStep(cmp, s, o) && !s.concurrent && s.ops[o].call.Put? && s.ops[o].pc == BackNext
             && Backs(s.mem, s.ops[o])
    ensures var s' := StepBackNext(s, o); o in s'.ops && Backs(s'.mem, s'.ops[o])
  {
    hide Backs, MemoryOk, TotalOrder, Splices;
    LinkingKnows(cmp, s.mem, s.ops[o], 0);
    NextBackBacks(cmp, s.mem, s.ops[o], StepBackNext(s, o).ops[o]);
  }

  lemma StoreNextWrites(cmp: Comparator, s: State, o: nat, level: nat)
    requires MayStep(cmp, s, o) && !s.concurrent && s.ops[o].call.Put? && s.ops[o].pc == StoreNext(level)
    requires Backs(s.mem, s.ops[o])
    ensures var s' := StepStoreNext(s, o, level); o in s'.ops && Backs(s'.mem, s'.ops[o])
  {
    hide Backs, MemoryOk, TotalOrder, Splices;
    LinkingKnows(cmp, s.mem, s.ops[o], level);
    OwnLinkBacks(cmp, s.mem, s.ops[o], StepStoreNext(s, o, level).ops[o], level);
  }

  lemma SwingFacts(cmp: Comparator, m: Memory, op: Op, level: nat)
    requires op.call.Put? && op.pc == SwingPrev(level) && PutOk(cmp, false, m, op)
    ensures LinkingFacts(m, op, level) && Next(m.heap, op.node, level) == op.next[level]
  {
    hide Splices, Owns, Budgets;
    LinkingKnows(cmp, m, op, level);
  }

  lemma BottomSwing(cmp: Comparator, s: State, o: nat)
    requires Ground(cmp, s, o) && !s.concurrent && s.ops[o].call.Put? && s.ops[o].pc == SwingPrev(0)
             && Backs(s.mem, s.ops[o])
    requires LinkingFacts(s.mem, s.ops[o], 0) && Next(s.mem.heap, s.ops[o].node, 0) == s.ops[o].next[0]
    ensures var s' := StepSwingPrev(s, o, 0); o in s'.ops && Backs(s'.mem, s'.ops[o])
  {
    var op, m := s.ops[o], s.mem;
    hide Backs, MemoryOk, TotalOrder, StepSwingPrev;
    var m', op' := Link(m, op.prev[0], 0, op.node), EnterLevel(op, false, 1);
    SwingShape(s, o, 0, m', op');
    BottomLinkBacks(cmp, m, op, op'.(at := |s.log|), op.prev[0]);
  }

  lemma UpperSwing(cmp: Comparator, s: State, o: nat, level: nat)
    requires Ground(cmp, s, o) && !s.concurrent && s.ops[o].call.Put? && s.ops[o].pc == SwingPrev(level)
             && Backs(s.mem, s.ops[o])
    requires LinkingFacts(s.mem, s.ops[o], level) && level > 0
    ensures var s' := StepSwingPrev(s, o, level); o in s'.ops && Backs(s'.mem, s'.ops[o])
  {
    var op, m := s.ops[o], s.mem;
    hide Backs, MemoryOk, TotalOrder, StepSwingPrev;
    var m', op' := Link(m, op.prev[level], level, op.node), EnterLevel(op, false, level + 1);
    SwingShape(s, o, level, m', op');
    UpperLinkBacks(cmp, m, op, op', level, op.prev[level]);
  }

  lemma SwingWrites(cmp: Comparator, s: State, o: nat, level: nat)
    requires MayStep(cmp, s, o) && !s.concurrent && s.ops[o].call.Put? && s.ops[o].pc == SwingPrev(level)
    requires Backs(s.mem, s.ops[o])
    ensures var s' := StepSwingPrev(s, o, level); o in s'.ops && Backs(s'.mem, s'.ops[o])
  {
    hide Backs, MemoryOk, TotalOrder, PutOk, StepSwingPrev;
    SwingFacts(cmp, s.mem, s.ops[o], level);
    if level == 0 {
      BottomSwing(cmp, s, o);
    } else {
      UpperSwing(cmp, s, o, level);
    }
  }

  lemma PreparingWrites(cmp: Comparator, s: State, o: nat, spurious: bool)
    requires MayStep(cmp, s, o) && !s.concurrent && s.ops[o].call.Put? && Backs(s.mem, s.ops[o])
    requires var pc := s.ops[o].pc; pc.ReadHeight? || pc.Search? || pc.AllocLoad? || pc.AllocCas? || pc.StoreHeight?
    ensures var s' := Advance(cmp, s, o, spurious); o in s'.ops && Backs(s'.mem, s'.ops[o])
  {
    hide Backs, MemoryOk, TotalOrder, OpOk, Advance, Allocates;
    PreparingStep(cmp, s, o, spurious);
    PreparingBacks(cmp, s.mem, Advance(cmp, s, o, spurious).mem, s.ops[o], Advance(cmp, s, o, spurious).ops[o]);
  }

  lemma WriterStep(cmp: Comparator, s: State, o: nat, spurious: bool)
    requires MayStep(cmp, s, o) && !s.concurrent && s.ops[o].call.Put? && Writing(s.ops[o]) && Backs(s.mem, s.ops[o])
    ensures var s' := Advance(cmp, s, o, spurious); o in s'.ops && Backs(s'.mem, s'.ops[o])
  {
    hide Backs, MemoryOk, TotalOrder, Budgets, Splices, Standing, Owns, ProtocolInvariant.Linking;
    match s.ops[o].pc
    case BackOwn => BackOwnWrites(cmp, s, o);
    case BackNext => BackNextWrites(cmp, s, o);
    case StoreNext(level) => StoreNextWrites(cmp, s, o, level);
    case SwingPrev(level) => SwingWrites(cmp, s, o, level);
    case ReadHeight => PreparingWrites(cmp, s, o, spurious);
    case Search(_, _) => PreparingWrites(cmp, s, o, spurious);
    case AllocLoad => PreparingWrites(cmp, s, o, spurious);
    case AllocCas(_) => PreparingWrites(cmp, s, o, spurious);
    case StoreHeight => PreparingWrites(cmp, s, o, spurious);
  }

  // -------------------- every run --------------------

  /** A step that leaves memory alone. */
  lemma IdleBacks(s: State, s': State, o: nat)
    requires BackInv(s) && s'.mem == s.mem && o in s'.ops && s'.ops == s.ops[o := s'.ops[o]]
    requires (o in s.ops ==> !BackStored(s.ops[o])) && !BackStored(s'.ops[o])
    ensures BackInv(s')
  {
    forall x | EarlyBack(s, x) ensures EarlyBack(s', x) {
      var p :| p in s.ops && Swinging(s.ops[p]) && At(s.ops[p].next, 0) == x;
      assert s'.ops[p] == s.ops[p];
    }
    forall p | p in s'.ops ensures OwnBacks(s'.mem, s'.ops[p]) {
      if p != o {
        assert s'.ops[p] == s.ops[p];
      }
    }
  }

  lemma WritingIsPut(cmp: Comparator, s: State, o: nat)
    requires o in s.ops && Writing(s.ops[o])
    ensures s.ops[o].call.Put?
  {
  }

  lemma IdleHasNoBack(op: Op)
    requires !Writing(op)
    ensures !BackStored(op)
  {
  }

  lemma GoKeepsBacks(cmp: Comparator, s: State, o: nat, spurious: bool)
    requires TotalOrder(cmp) && Inv(cmp, s) && !s.concurrent && BackInv(s) && o in s.ops
    ensures BackInv(Advance(cmp, s, o, spurious))
  {
    hide *;
    var s' := Advance(cmp, s, o, spurious);
    InvMayStep(cmp, s, o);
    AnyStep(cmp, s, o, spurious);
    if s' != s {
      StepFacts(cmp, s, s', o);
      if Writing(s.ops[o]) {
        LoneWriter(cmp, s, o);
        WriterSees(s, o);
        WritingIsPut(cmp, s, o);
        WriterStep(cmp, s, o, spurious);
        WriterLeaves(s', o);
      } else {
        IdleHasNoBack(s.ops[o]);
        IdleHasNoBack(s'.ops[o]);
        IdleBacks(s, s', o);
      }
    }
  }

  lemma {:induction false} RunBacks(cmp: Comparator, capacity: nat, acts: seq<Action>)
    requires TotalOrder(cmp) && capacity >= 192
    ensures var s := Run(cmp, capacity, false, acts); !s.concurrent && BackInv(s)
  {
    if acts == [] {
      FreshBacks(capacity);
    } else {
      var front, a := acts[..|acts| - 1], acts[|acts| - 1];
      RunBacks(cmp, capacity, front);
      RunInv(cmp, capacity, false, front);
      hide TotalOrder, Inv, BackInv;
      DoBacks(cmp, Run(cmp, capacity, false, front), a);
    }
  }

  lemma FreshBacks(capacity: nat)
    ensures BackInv(Fresh(capacity, false))
  {
  }

  lemma DoBacks(cmp: Comparator, s: State, a: Action)
    requires TotalOrder(cmp) && Inv(cmp, s) && !s.concurrent && BackInv(s)
    ensures !Do(cmp, s, a).concurrent && BackInv(Do(cmp, s, a))
  {
    hide TotalOrder, Inv, BackInv;
    match a
    case Start(o, call, pick) =>
      if MayStart(s, a) {
        IdleBacks(s, Do(cmp, s, a), o);
      }
    case Go(o, spurious) =>
      if o in s.ops {
        GoKeepsBacks(cmp, s, o, spurious);
        AdvanceKeepsMode(cmp, s, o, spurious);
      }
  }

  /** In single-writer mode, at every moment, the back pointer of a stored node leads to its level-0 predecessor if and
      only if no put has claimed the node: stored its back pointer and not yet linked its own node in front of it. A
      claimed node's back pointer leads to the claiming put's node, which is not linked yet. */
  lemma PrevIsPredecessorIff(cmp: Comparator, capacity: nat, acts: seq<Action>, x: nat) returns (p: nat)
    requires TotalOrder(cmp) && capacity >= 192
    requires var m := Run(cmp, capacity, false, acts).mem; 0 < |m.linked| && x in m.linked[0] && x != HEAD
    ensures var s := Run(cmp, capacity, false, acts);
            && p in s.mem.linked[0] && HasLevel(s.mem.heap, p, 0) && Next(s.mem.heap, p, 0) == x && x in s.mem.heap
            && (s.mem.heap[x].prev == p <==> !EarlyBack(s, x))
            && (s.mem.heap[x].prev in s.mem.linked[0] <==> !EarlyBack(s, x))
  {
    RunBacks(cmp, capacity, acts);
    RunInv(cmp, capacity, false, acts);
    hide TotalOrder, Run, Inv, BackInv, EarlyBack;
    p := PrevInState(cmp, Run(cmp, capacity, false, acts), x);
  }

  /** Between puts every back pointer can be trusted. */
  lemma QuietPrevIsPredecessor(cmp: Comparator, capacity: nat, acts: seq<Action>, x: nat)
    requires TotalOrder(cmp) && capacity >= 192
    requires var s := Run(cmp, capacity, false, acts);
             && (forall o {:trigger s.ops[o]} :: o in s.ops ==> !Writing(s.ops[o]))
             && 0 < |s.mem.linked| && x in s.mem.linked[0] && x != HEAD
    ensures var m := Run(cmp, capacity, false, acts).mem;
            && x in m.heap && m.heap[x].prev in m.linked[0]
            && HasLevel(m.heap, m.heap[x].prev, 0) && Next(m.heap, m.heap[x].prev, 0) == x
  {
    var p := PrevIsPredecessorIff(cmp, capacity, acts, x);
    hide Run, TotalOrder;
    NoEarlyBack(Run(cmp, capacity, false, acts), x);
  }

  lemma NoEarlyBack(s: State, x: nat)
    requires forall o {:trigger s.ops[o]} :: o in s.ops ==> !Writing(s.ops[o])
    ensures !EarlyBack(s, x)
  {
  }

  lemma PrevInState(cmp: Comparator, s: State, x: nat) returns (p: nat)
    requires TotalOrder(cmp) && Inv(cmp, s) && !s.concurrent && BackInv(s) && x in s.mem.linked[0] && x != HEAD
    ensures p in s.mem.linked[0] && HasLevel(s.mem.heap, p, 0) && Next(s.mem.heap, p, 0) == x && x in s.mem.heap
    ensures s.mem.heap[x].prev == p <==> !EarlyBack(s, x)
    ensures s.mem.heap[x].prev in s.mem.linked[0] <==> !EarlyBack(s, x)
  {
    InvLevelZero(cmp, s);
    p := ListShape.PredecessorFrom(cmp, s.mem.heap, s.mem.linked[0], HEAD, x);
    if EarlyBack(s, x) {
      var o :| o in s.ops && Swinging(s.ops[o]) && At(s.ops[o].next, 0) == x;
      ClaimerIsUnlinked(cmp, s, o);
    }
  }

  lemma InvLevelZero(cmp: Comparator, s: State)
    requires Inv(cmp, s)
    ensures 0 < |s.mem.linked| && LevelOk(cmp, s.mem.heap, s.mem.linked[0], 0) && 0 !in s.mem.linked[0]
  {
    hide CallsOk, LogOk;
    LevelZero(cmp, s.mem);
  }

  lemma ClaimerIsUnlinked(cmp: Comparator, s: State, o: nat)
    requires Inv(cmp, s) && !s.concurrent && o in s.ops && Swinging(s.ops[o])
    ensures 0 < |s.mem.linked| && s.ops[o].node !in s.mem.linked[0]
  {
    hide MemoryOk, LogOk, Splices, Budgets;
    assert OpOk(cmp, s.concurrent, s.mem, s.ops[o]);
    OwnFacts(s.mem, s.ops[o], 0);
  }
}
