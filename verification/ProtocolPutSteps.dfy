/** The steps of a put after its first descent: allocation, raising the height, linking. */
module ProtocolPutSteps {
  import opened ByteStrings
  import opened Comparators
  import opened Levels
  import opened Chains
  import opened MapSpec
  import opened Protocol
  import opened ProtocolInvariant
  import opened ProtocolInterference
  import opened ProtocolEffects
  import opened ProtocolSteps

  lemma AllocLoadStep(cmp: Comparator, s: State, o: nat)
    requires MayStep(cmp, s, o) && s.ops[o].pc.AllocLoad? && s.ops[o].call.Put?
    ensures GoodStep(cmp, s, StepAllocLoad(s, o), o)
  {
    var op, op' := s.ops[o], StepAllocLoad(s, o).ops[o];
    if op'.pc.AllocCas? {
      BudgetsKept(s.mem, op, op');
      SplicesKept(cmp, s.concurrent, s.mem, op, op', 0, MAX_HEIGHT);
    }
    LocalStep(cmp, s, o, op');
  }

  lemma AllocRetryStep(cmp: Comparator, s: State, o: nat)
    requires MayStep(cmp, s, o) && s.ops[o].pc.AllocCas? && s.ops[o].call.Put?
    ensures GoodStep(cmp, s, Goto(s, o, AllocLoad), o)
  {
    var op := s.ops[o];
    BudgetsKept(s.mem, op, op.(pc := AllocLoad));
    SplicesKept(cmp, s.concurrent, s.mem, op, op.(pc := AllocLoad), 0, MAX_HEIGHT);
    LocalStep(cmp, s, o, op.(pc := AllocLoad));
  }

  /** Storing back the value already there. */
  lemma SameUpdate(q: seq<nat>, i: nat)
    requires i < |q| && q[i] != 0
    ensures Put21(q, i, OrHead(At(q, i))) == q
  {
  }

  /** The linking loop's body starts at a level whose predecessor is known: it is never 0. */
  lemma EnterLevelOk(cmp: Comparator, concurrent: bool, m: Memory, op: Op, level: nat)
    requires Budgets(m, op) && op.pick <= m.height && level <= op.pick + 1
    requires Owns(m, op, level)
    requires Splices(cmp, concurrent, m, op, level, op.pick + 1)
    ensures var op' := EnterLevel(op, concurrent, level);
            && PutOk(cmp, concurrent, m, op') && op' == op.(pc := op'.pc)
            && op'.pc == if level > op.pick then Respond(PutAnswer(None))
                         else if level == 0 && !concurrent then BackOwn else StoreNext(level)
  {
    if level <= op.pick {
      assert op.prev[level] == op.prev[level];
      assert SpliceOk(cmp, concurrent, m, op, level);
      SameUpdate(op.prev, level);
    }
    var op' := EnterLevel(op, concurrent, level);
    BudgetsKept(m, op, op');
    SplicesKept(cmp, concurrent, m, op, op', level, op.pick + 1);
    assert Owns(m, op', level);
  }

  /** One put's step on memory and on its own variables that leaves the map as it is. */
  ghost predicate PutMove(cmp: Comparator, concurrent: bool, m: Memory, m': Memory, op: Op, op': Op) {
    && op.call.Put? && Writing(op) && op'.call == op.call && op'.at == op.at && Effective(op') == Effective(op)
    && (op'.node == op.node || (op.node == 0 && op'.node !in m.heap && Effective(op) == None))
    && MemoryOk(cmp, m) && MemoryOk(cmp, m') && SameContents(cmp, m, m') && Evolves(m, m', op'.node)
    && PutOk(cmp, concurrent, m', op')
    && (op'.node in m'.linked[0] <==> op'.node in m.linked[0])
  }

  lemma MemoryStep(cmp: Comparator, s: State, o: nat, m': Memory, op': Op)
    requires o in s.ops && PutMove(cmp, s.concurrent, s.mem, m', s.ops[o], op')
    ensures GoodStep(cmp, s, Now(s.(mem := m'), o, op'), o)
  {
    var s' := Now(s.(mem := m'), o, op');
    assert Moves(cmp, s, s', o);
    assert Silent(cmp, s, s', o);
  }

  lemma AllocCasStep(cmp: Comparator, s: State, o: nat)
    requires MayStep(cmp, s, o) && s.ops[o].pc.AllocCas? && s.ops[o].call.Put?
    requires s.mem.top == s.ops[o].pc.current
    ensures GoodStep(cmp, s, StepAllocCas(s, o, s.ops[o].pc.current), o)
  {
    var op, m := s.ops[o], s.mem;
    var m', op' := Bump(m, m.top, FreshNode(op.call.key, op.call.value, op.pick)),
      AfterAlloc(op.(node := m.top), s.concurrent);
    AllocMove(cmp, s.concurrent, m, m', op, op.(node := m.top), op');
    AllocShape(s, o, m', op');
    MemoryStep(cmp, s, o, m', op');
  }

  lemma AllocShape(s: State, o: nat, m': Memory, op': Op)
    requires o in s.ops && s.ops[o].call.Put? && s.mem.top != 0
    requires m' == Bump(s.mem, s.mem.top, FreshNode(s.ops[o].call.key, s.ops[o].call.value, s.ops[o].pick))
    requires op' == AfterAlloc(s.ops[o].(node := s.mem.top), s.concurrent)
    ensures StepAllocCas(s, o, s.mem.top) == Now(s.(mem := m'), o, op')
  {
  }

  function AfterAlloc(op: Op, concurrent: bool): Op {
    if op.pick > op.listHeight then op.(pc := if concurrent then Raise(op.listHeight) else StoreHeight)
    else EnterLevel(op, concurrent, 0)
  }

  lemma AllocMove(cmp: Comparator, concurrent: bool, m: Memory, m': Memory, op: Op, op1: Op, op': Op)
    requires MemoryOk(cmp, m) && op.call.Put? && PutOk(cmp, concurrent, m, op) && op.pc.AllocCas?
             && op.pc.current == m.top
    requires m' == Bump(m, m.top, FreshNode(op.call.key, op.call.value, op.pick)) && op1 == op.(node := m.top)
             && op' == AfterAlloc(op1, concurrent)
    ensures PutMove(cmp, concurrent, m, m', op, op')
  {
    BumpEffect(cmp, m, FreshNode(op.call.key, op.call.value, op.pick), m.top);
    AllocatedOk(cmp, concurrent, m, m', op, op1);
    AfterAllocOk(cmp, concurrent, m', op1);
    NotLinkedYet(cmp, m, m.top);
  }

  lemma NotLinkedYet(cmp: Comparator, m: Memory, x: nat)
    requires MemoryOk(cmp, m) && x !in m.heap
    ensures x !in m.linked[0]
  {
    LevelZero(cmp, m);
  }

  lemma AfterAllocOk(cmp: Comparator, concurrent: bool, m: Memory, op: Op)
    requires Budgets(m, op) && Owns(m, op, 0) && Splices(cmp, concurrent, m, op, 0, MAX_HEIGHT)
    requires !concurrent ==> op.listHeight == m.height
    ensures var op' := AfterAlloc(op, concurrent);
            PutOk(cmp, concurrent, m, op') && op' == op.(pc := op'.pc) && Writing(op') && Effective(op') == None
  {
    if op.pick > op.listHeight {
      var op' := op.(pc := if concurrent then Raise(op.listHeight) else StoreHeight);
      BudgetsKept(m, op, op');
      SplicesKept(cmp, concurrent, m, op, op', 0, MAX_HEIGHT);
      assert Owns(m, op', 0);
    } else {
      EnterLevelOk(cmp, concurrent, m, op, 0);
    }
  }

  lemma AllocatedOk(cmp: Comparator, concurrent: bool, m: Memory, m': Memory, op: Op, op1: Op)
    requires MemoryOk(cmp, m) && MemoryOk(cmp, m') && Evolves(m, m', m.top) && m.top !in m.heap && HEAD < m.top
    requires op.call.Put? && PutOk(cmp, concurrent, m, op) && op.pc.AllocCas?
    requires m' == Bump(m, m.top, FreshNode(op.call.key, op.call.value, op.pick))
    requires op1 == op.(node := m.top)
    ensures Budgets(m', op1) && Owns(m', op1, 0) && Splices(cmp, concurrent, m', op1, 0, MAX_HEIGHT)
  {
    forall j | 0 <= j < MAX_HEIGHT ensures op1.node !in m'.linked[j] && Budget(m', op1, j) {
      assert LevelOk(cmp, m.heap, m.linked[j], j);
      assert op.failed[j] == op1.failed[j];
      assert Budget(m, op, j);
    }
    SplicesStable(cmp, concurrent, m, m', m.top, op, 0, MAX_HEIGHT);
    SplicesKept(cmp, concurrent, m', op, op1, 0, MAX_HEIGHT);
  }

  lemma RaisedOk(cmp: Comparator, concurrent: bool, m: Memory, m': Memory, op: Op)
    requires MemoryOk(cmp, m) && MemoryOk(cmp, m') && Evolves(m, m', 0) && m'.links == m.links
    requires Budgets(m, op) && Owns(m, op, 0) && Splices(cmp, concurrent, m, op, 0, MAX_HEIGHT)
    requires op.pick <= m'.height
    ensures PutOk(cmp, concurrent, m', EnterLevel(op, concurrent, 0))
    ensures EnterLevel(op, concurrent, 0) == op.(pc := if concurrent then StoreNext(0) else BackOwn)
  {
    BudgetsStable(m, m', 0, op);
    OwnsStable(m, m', 0, op, 0);
    SplicesStable(cmp, concurrent, m, m', 0, op, 0, MAX_HEIGHT);
    EnterLevelOk(cmp, concurrent, m', op, 0);
  }

  lemma RaiseStep(cmp: Comparator, s: State, o: nat, spurious: bool)
    requires MayStep(cmp, s, o) && s.ops[o].pc.Raise? && s.ops[o].call.Put?
    ensures GoodStep(cmp, s, StepRaise(s, o, s.ops[o].pc.current, spurious), o)
  {
    hide TotalOrder, GoodStep, HeapOk, LevelsOk, Evolves;
    var op, m := s.ops[o], s.mem;
    if m.height == op.pc.current && !spurious {
      RaiseEffect(cmp, m, op.pick);
      var m' := RaiseTo(m, op.pick);
      RaisedOk(cmp, s.concurrent, m, m', op);
      EvolvesWeaken(m, m', op.node);
      MemoryStep(cmp, s, o, m', EnterLevel(op, s.concurrent, 0));
    } else if m.height < op.pick {
      BudgetsKept(m, op, op.(pc := Raise(m.height)));
      SplicesKept(cmp, s.concurrent, m, op, op.(pc := Raise(m.height)), 0, MAX_HEIGHT);
      assert Owns(m, op.(pc := Raise(m.height)), 0);
      LocalStep(cmp, s, o, op.(pc := Raise(m.height)));
    } else {
      EvolvesSelf(m, 0);
      RaisedOk(cmp, s.concurrent, m, m, op);
      LocalStep(cmp, s, o, EnterLevel(op, s.concurrent, 0));
    }
  }

  lemma StoreHeightStep(cmp: Comparator, s: State, o: nat)
    requires MayStep(cmp, s, o) && s.ops[o].pc.StoreHeight? && s.ops[o].call.Put?
    ensures GoodStep(cmp, s, StepStoreHeight(s, o), o)
  {
    hide TotalOrder, GoodStep, HeapOk, LevelsOk;
    var op, m := s.ops[o], s.mem;
    var m' := RaiseTo(m, op.pick);
    RaiseEffect(cmp, m, op.pick);
    RaisedOk(cmp, s.concurrent, m, m', op);
    EvolvesWeaken(m, m', op.node);
    MemoryStep(cmp, s, o, m', EnterLevel(op, s.concurrent, 0));
  }

  // -------------------- back pointers --------------------

  lemma RelinkingOk(cmp: Comparator, concurrent: bool, m: Memory, m': Memory, mine: nat, op: Op, op': Op, level: nat)
    requires Evolves(m, m', mine) && m'.linked == m.linked && m'.links == m.links
    requires Budgets(m, op) && Linking(cmp, concurrent, m, op, level, level)
    requires op' == op.(pc := op'.pc)
    ensures Budgets(m', op') && Linking(cmp, concurrent, m', op', level, level)
  {
    forall j | 0 <= j < MAX_HEIGHT ensures Budget(m', op', j) {
      assert op.failed[j] == op'.failed[j];
      assert Budget(m, op, j);
    }
    SplicesStable(cmp, concurrent, m, m', mine, op, level, op.pick + 1);
    SplicesKept(cmp, concurrent, m', op, op', level, op.pick + 1);
    assert op.node in m'.heap && m'.heap[op.node].key == op.call.key;
  }

  lemma BackMove(cmp: Comparator, concurrent: bool, m: Memory, m': Memory, op: Op, op': Op, x: nat, target: nat)
    requires MemoryOk(cmp, m) && x in m.heap && m' == SetBack(m, x, target)
    requires Budgets(m, op) && Linking(cmp, concurrent, m, op, 0, 0) && !concurrent
    requires Writing(op) && Effective(op) == None && op' == op.(pc := op'.pc)
    requires op'.pc == StoreNext(0) || (op'.pc == BackNext && op.next[0] != 0)
    ensures PutMove(cmp, concurrent, m, m', op, op')
  {
    BackEffect(cmp, m, x, target);
    RelinkingOk(cmp, concurrent, m, m', 0, op, op', 0);
    EvolvesWeaken(m, m', op.node);
  }

  lemma BackStep(cmp: Comparator, s: State, o: nat, x: nat, target: nat, pc: Pc)
    requires MayStep(cmp, s, o) && s.ops[o].call.Put? && (s.ops[o].pc.BackOwn? || s.ops[o].pc.BackNext?)
    requires x in s.mem.heap && (pc == StoreNext(0) || (pc == BackNext && s.ops[o].next[0] != 0))
    ensures GoodStep(cmp, s, Goto(s.(mem := SetBack(s.mem, x, target)), o, pc), o)
  {
    var op, m', op' := s.ops[o], SetBack(s.mem, x, target), s.ops[o].(pc := pc);
    BackMove(cmp, s.concurrent, s.mem, m', op, op', x, target);
    MemoryStep(cmp, s, o, m', op');
  }

  lemma BackOwnStep(cmp: Comparator, s: State, o: nat)
    requires MayStep(cmp, s, o) && s.ops[o].call.Put? && s.ops[o].pc.BackOwn?
    ensures GoodStep(cmp, s, StepBackOwn(s, o), o)
  {
    var op := s.ops[o];
    BackStep(cmp, s, o, op.node, At(op.prev, 0), if At(op.next, 0) != 0 then BackNext else StoreNext(0));
  }

  lemma BackNextStep(cmp: Comparator, s: State, o: nat)
    requires MayStep(cmp, s, o) && s.ops[o].call.Put? && s.ops[o].pc.BackNext?
    ensures GoodStep(cmp, s, StepBackNext(s, o), o)
  {
    var op := s.ops[o];
    assert op.prev[0] == op.prev[0];
    assert SpliceOk(cmp, s.concurrent, s.mem, op, 0);
    BackStep(cmp, s, o, At(op.next, 0), op.node, StoreNext(0));
  }

  // -------------------- linking --------------------

  /** The node is private on the level being linked, and tall enough for it. */
  lemma OwnFacts(m: Memory, op: Op, level: nat)
    requires op.call.Put? && Owns(m, op, level) && level <= op.pick
    ensures HasLevel(m.heap, op.node, level) && op.node !in m.linked[level]
    ensures level > 0 ==> op.node in m.linked[level - 1]
  {
    assert m.linked[level] == m.linked[level];
    if level > 0 {
      assert m.linked[level - 1] == m.linked[level - 1];
    }
  }

  lemma StoreNextOk(cmp: Comparator, concurrent: bool, m: Memory, op: Op, level: nat)
    requires MemoryOk(cmp, m) && Budgets(m, op) && Linking(cmp, concurrent, m, op, level, level)
    ensures HasLevel(m.heap, op.node, level)
    ensures var m' := SetOwnNext(m, op.node, level, op.next[level]);
            && MemoryOk(cmp, m') && SameContents(cmp, m, m') && Evolves(m, m', op.node)
            && PutOk(cmp, concurrent, m', op.(pc := SwingPrev(level)))
  {
    OwnFacts(m, op, level);
    OwnNextEffect(cmp, m, op.node, level, op.next[level]);
    RelinkingOk(cmp, concurrent, m, SetOwnNext(m, op.node, level, op.next[level]), op.node, op,
      op.(pc := SwingPrev(level)), level);
  }

  lemma StoreNextMove(cmp: Comparator, concurrent: bool, m: Memory, m': Memory, op: Op, op': Op, level: nat)
    requires op.call.Put? && op.pc == StoreNext(level) && op' == op.(pc := SwingPrev(level))
    requires MemoryOk(cmp, m) && MemoryOk(cmp, m') && SameContents(cmp, m, m') && Evolves(m, m', op.node)
    requires m'.linked == m.linked && PutOk(cmp, concurrent, m', op')
    ensures PutMove(cmp, concurrent, m, m', op, op')
  {
    hide PutOk, HeapOk, LevelsOk, HeightOk, SameContents;
  }

  lemma StoreNextShape(s: State, o: nat, level: nat, m': Memory, op': Op)
    requires o in s.ops && HasLevel(s.mem.heap, s.ops[o].node, level) && level < |s.ops[o].next|
    requires m' == SetOwnNext(s.mem, s.ops[o].node, level, s.ops[o].next[level])
             && op' == s.ops[o].(pc := SwingPrev(level))
    ensures StepStoreNext(s, o, level) == Now(s.(mem := m'), o, op')
  {
  }

  lemma StoreNextStep(cmp: Comparator, s: State, o: nat)
    requires MayStep(cmp, s, o) && s.ops[o].call.Put? && s.ops[o].pc.StoreNext?
    ensures GoodStep(cmp, s, StepStoreNext(s, o, s.ops[o].pc.level), o)
  {
    hide TotalOrder, GoodStep, HeapOk, LevelsOk, HeightOk, Owns, Splices, Evolves, SameContents, StepStoreNext;
    var op, m, level := s.ops[o], s.mem, s.ops[o].pc.level;
    StoreNextOk(cmp, s.concurrent, m, op, level);
    var m', op' := SetOwnNext(m, op.node, level, op.next[level]), op.(pc := SwingPrev(level));
    StoreNextShape(s, o, level, m', op');
    StoreNextMove(cmp, s.concurrent, m, m', op, op', level);
    hide *;
    MemoryStep(cmp, s, o, m', op');
  }

  /** The predecessor's link still is what the splice says: the node can go in. */
  lemma ReadyToLink(cmp: Comparator, concurrent: bool, m: Memory, op: Op, level: nat)
    requires TotalOrder(cmp) && MemoryOk(cmp, m) && op.call.Put? && Linking(cmp, concurrent, m, op, level, level)
    requires Next(m.heap, op.node, level) == op.next[level]
    requires HasLevel(m.heap, op.prev[level], level)
    requires !concurrent || Next(m.heap, op.prev[level], level) == op.next[level]
    ensures MayLink(cmp, m, op.prev[level], level, op.node)
    ensures Next(m.heap, op.prev[level], level) == op.next[level]
  {
    OwnFacts(m, op, level);
    assert SpliceOk(cmp, concurrent, m, op, level);
    assert LevelOk(cmp, m.heap, m.linked[level], level);
  }

  /** After linking level `level`, the call is set up for the next one. */
  lemma LinkedOk(cmp: Comparator, concurrent: bool, m: Memory, op: Op, level: nat)
    requires TotalOrder(cmp) && MemoryOk(cmp, m) && Budgets(m, op) && Linking(cmp, concurrent, m, op, level, level)
    requires MayLink(cmp, m, op.prev[level], level, op.node)
    ensures HasLevel(m.heap, op.prev[level], level)
    ensures var m' := Link(m, op.prev[level], level, op.node);
            var op' := EnterLevel(op, concurrent, level + 1);
            && PutOk(cmp, concurrent, m', op') && op' == op.(pc := op'.pc)
            && op'.pc == if level == op.pick then Respond(PutAnswer(None)) else StoreNext(level + 1)
  {
    hide LevelOk, HeapOk, LevelsOk, HeightOk;
    LinkEffect(cmp, m, op.prev[level], level, op.node);
    var m' := Link(m, op.prev[level], level, op.node);
    LinkedBudgets(cmp, concurrent, m, op, level);
    SplicesStable(cmp, concurrent, m, m', op.node, op, level + 1, op.pick + 1);
    LinkedOwns(m, m', op, level);
    EnterLevelOk(cmp, concurrent, m', op, level + 1);
  }

  lemma LinkedOwns(m: Memory, m': Memory, op: Op, level: nat)
    requires op.call.Put? && Owns(m, op, level) && level <= op.pick && level < |m.links| && level < |op.prev|
    requires HasLevel(m.heap, op.prev[level], level) && m' == Link(m, op.prev[level], level, op.node)
    ensures Owns(m', op, level + 1)
  {
    forall j | 0 <= j < MAX_HEIGHT ensures op.node in m'.linked[j] <==> j < level + 1 {
      assert m.linked[j] == m.linked[j];
    }
  }

  /** A successful CAS spends one of the links counted on its level. */
  lemma LinkedBudgets(cmp: Comparator, concurrent: bool, m: Memory, op: Op, level: nat)
    requires Budgets(m, op) && Linking(cmp, concurrent, m, op, level, level)
    requires MayLink(cmp, m, op.prev[level], level, op.node) && HasLevel(m.heap, op.prev[level], level)
    ensures Budgets(Link(m, op.prev[level], level, op.node), op)
  {
    var m' := Link(m, op.prev[level], level, op.node);
    assert SpliceOk(cmp, concurrent, m, op, level);
    forall j | 0 <= j < MAX_HEIGHT ensures Budget(m', op, j) {
      assert Budget(m, op, j);
    }
  }

  lemma SwingStep(cmp: Comparator, s: State, o: nat)
    requires MayStep(cmp, s, o) && s.ops[o].call.Put? && s.ops[o].pc.SwingPrev?
    ensures GoodStep(cmp, s, StepSwingPrev(s, o, s.ops[o].pc.level), o)
  {
    var op, m, level := s.ops[o], s.mem, s.ops[o].pc.level;
    assert SpliceOk(cmp, s.concurrent, m, op, level);
    if !s.concurrent || Next(m.heap, op.prev[level], level) == op.next[level] {
      LinkStep(cmp, s, o, level);
    } else {
      SwingFails(cmp, s, o, level);
    }
  }

  /** The CAS succeeds: on level 0 this is the instant at which the put takes effect. */
  lemma LinkStep(cmp: Comparator, s: State, o: nat, level: nat)
    requires Ground(cmp, s, o) && s.ops[o].call.Put? && s.ops[o].pc == SwingPrev(level)
    requires Budgets(s.mem, s.ops[o]) && Linking(cmp, s.concurrent, s.mem, s.ops[o], level, level)
    requires HasLevel(s.mem.heap, s.ops[o].prev[level], level)
    requires Next(s.mem.heap, s.ops[o].node, level) == s.ops[o].next[level]
    requires !s.concurrent || Next(s.mem.heap, s.ops[o].prev[level], level) == s.ops[o].next[level]
    ensures GoodStep(cmp, s, StepSwingPrev(s, o, level), o)
  {
    var op, m := s.ops[o], s.mem;
    ReadyToLink(cmp, s.concurrent, m, op, level);
    var m', op' := Link(m, op.prev[level], level, op.node), EnterLevel(op, s.concurrent, level + 1);
    LinkFacts(cmp, s.concurrent, m, m', op, op', level);
    SwingShape(s, o, level, m', op');
    if level > 0 {
      LinkSilently(cmp, s, o, level, m', op');
    } else {
      LinkAndCommit(cmp, s, o, m', op');
    }
  }

  lemma SwingShape(s: State, o: nat, level: nat, m': Memory, op': Op)
    requires o in s.ops && level < |s.ops[o].prev| && level < |s.ops[o].next| && level < |s.mem.linked|
             && level < |s.mem.links|
    requires HasLevel(s.mem.heap, s.ops[o].prev[level], level)
    requires !s.concurrent || Next(s.mem.heap, s.ops[o].prev[level], level) == s.ops[o].next[level]
    requires m' == Link(s.mem, s.ops[o].prev[level], level, s.ops[o].node)
    requires op' == EnterLevel(s.ops[o], s.concurrent, level + 1)
    ensures StepSwingPrev(s, o, level) ==
            if level == 0 then Commit(s.(mem := m'), o, op', PutAnswer(None)) else Now(s.(mem := m'), o, op')
  {
  }

  lemma LinkSilently(cmp: Comparator, s: State, o: nat, level: nat, m': Memory, op': Op)
    requires o in s.ops && level > 0 && s.ops[o].pc == SwingPrev(level) && level < |s.ops[o].prev|
    requires Linked(cmp, s.concurrent, s.mem, m', s.ops[o], op', level)
    requires StepSwingPrev(s, o, level) == Now(s.(mem := m'), o, op')
    ensures GoodStep(cmp, s, StepSwingPrev(s, o, level), o)
  {
    hide MemoryOk, Evolves, PutOk, StepSwingPrev, Contents, EnterLevel;
    assert PutMove(cmp, s.concurrent, s.mem, m', s.ops[o], op');
    hide *;
    MemoryStep(cmp, s, o, m', op');
  }

  lemma LinkAndCommit(cmp: Comparator, s: State, o: nat, m': Memory, op': Op)
    requires o in s.ops && s.ops[o].pc == SwingPrev(0) && 0 < |s.ops[o].prev|
    requires Linked(cmp, s.concurrent, s.mem, m', s.ops[o], op', 0)
    requires StepSwingPrev(s, o, 0) == Commit(s.(mem := m'), o, op', PutAnswer(None))
    ensures GoodStep(cmp, s, StepSwingPrev(s, o, 0), o)
  {
    hide MemoryOk, Evolves, StepSwingPrev, Contents;
    var s', op1 := Commit(s.(mem := m'), o, op', PutAnswer(None)), op'.(at := |s.log|);
    assert s'.ops[o] == op1 && s'.mem == m';
    AtDoesNotMatter(cmp, s.concurrent, m', op', op1);
    assert Moves(cmp, s, s', o);
    InsertCommits(cmp, s, s', o);
  }

  lemma InsertCommits(cmp: Comparator, s: State, s': State, o: nat)
    requires Moves(cmp, s, s', o)
    requires var op, op', c := s.ops[o], s'.ops[o], Contents(s.mem.heap, s.mem.linked[0]);
             && op.call.Put? && Effective(op) == None && Effective(op') == Some(PutAnswer(None)) && op'.at == |s.log|
             && s'.log == s.log + [Event(o, op.call, PutAnswer(None))]
             && op.call.key !in c && Contents(s'.mem.heap, s'.mem.linked[0]) == c[op.call.key := op.call.value]
             && op'.node in s'.mem.linked[0]
    ensures Commits(cmp, s, s', o)
  {
    InsertIsLegal(cmp, Contents(s.mem.heap, s.mem.linked[0]), s.ops[o].call);
  }

  lemma InsertIsLegal(cmp: Comparator, c: map<Bytes, Bytes>, call: Call)
    requires call.Put? && call.key !in c
    ensures Legal(cmp, c, call, PutAnswer(None)) && Effect(c, call) == c[call.key := call.value]
  {
  }

  /** Memory and the call before and after it links its node on `level`. */
  ghost predicate Linked(cmp: Comparator, concurrent: bool, m: Memory, m': Memory, op: Op, op': Op, level: nat)
    requires level < |op.prev|
  {
    && op.call.Put? && op' == op.(pc := op'.pc)
    && op'.pc == (if level == op.pick then Respond(PutAnswer(None)) else StoreNext(level + 1))
    && MemoryOk(cmp, m) && MemoryOk(cmp, m') && Evolves(m, m', op.node) && op.node in m'.linked[0]
    && PutOk(cmp, concurrent, m', op')
    && (level > 0 ==> SameContents(cmp, m, m') && op.node in m.linked[0])
    && (level == 0 ==> op.call.key !in Contents(m.heap, m.linked[0])
                       && Contents(m'.heap, m'.linked[0])
                          == Contents(m.heap, m.linked[0])[op.call.key := op.call.value])
  }

  lemma LinkFacts(cmp: Comparator, concurrent: bool, m: Memory, m': Memory, op: Op, op': Op, level: nat)
    requires TotalOrder(cmp) && MemoryOk(cmp, m) && Budgets(m, op) && Linking(cmp, concurrent, m, op, level, level)
    requires MayLink(cmp, m, op.prev[level], level, op.node) && HasLevel(m.heap, op.prev[level], level)
    requires m' == Link(m, op.prev[level], level, op.node) && op' == EnterLevel(op, concurrent, level + 1)
    ensures Linked(cmp, concurrent, m, m', op, op', level)
  {
    LinkedOk(cmp, concurrent, m, op, level);
    LinkEffect(cmp, m, op.prev[level], level, op.node);
    LinkContents(cmp, m, op.prev[level], level, op.node);
    if level > 0 {
      assert op.node in m.linked[0] by {
        assert m.linked[0] == m.linked[0];
      }
    }
  }

  lemma AtDoesNotMatter(cmp: Comparator, concurrent: bool, m: Memory, op: Op, op': Op)
    requires op.call.Put? && PutOk(cmp, concurrent, m, op) && op' == op.(at := op'.at)
    requires op.pc.StoreNext? || op.pc.Respond?
    ensures PutOk(cmp, concurrent, m, op')
  {
    BudgetsKept(m, op, op');
    if op.pc.StoreNext? {
      SplicesKept(cmp, concurrent, m, op, op', op.pc.level, op.pick + 1);
      assert Owns(m, op', op.pc.level);
    } else {
      assert op.node != 0 && Owns(m, op, op.pick + 1) ==> Owns(m, op', op.pick + 1);
      assert op.node != 0 && Owns(m, op, 0) ==> Owns(m, op', 0);
    }
  }

  lemma SwingFailsOk(cmp: Comparator, m: Memory, op: Op, op': Op, level: nat)
    requires Budgets(m, op) && Linking(cmp, true, m, op, level, level)
    requires HasLevel(m.heap, op.prev[level], level) && Next(m.heap, op.prev[level], level) != op.next[level]
    requires op' == op.(failed := Put21(op.failed, level, At(op.failed, level) + 1),
             pc := Research(level, op.prev[level]))
    ensures PutOk(cmp, true, m, op')
  {
    OwnFacts(m, op, level);
    assert SpliceOk(cmp, true, m, op, level);
    forall j | 0 <= j < MAX_HEIGHT ensures Budget(m, op', j) {
      assert Budget(m, op, j);
    }
    SplicesKept(cmp, true, m, op, op', level + 1, op.pick + 1);
    assert Owns(m, op', level);
  }

  /** The CAS fails: somebody linked on this level since the splice was taken. */
  lemma SwingFails(cmp: Comparator, s: State, o: nat, level: nat)
    requires Ground(cmp, s, o) && s.ops[o].call.Put? && s.ops[o].pc == SwingPrev(level)
    requires Budgets(s.mem, s.ops[o]) && Linking(cmp, s.concurrent, s.mem, s.ops[o], level, level)
    requires HasLevel(s.mem.heap, s.ops[o].prev[level], level)
    requires s.concurrent && Next(s.mem.heap, s.ops[o].prev[level], level) != s.ops[o].next[level]
    ensures GoodStep(cmp, s, StepSwingPrev(s, o, level), o)
  {
    hide TotalOrder, MemoryOk, GoodStep, PutOk;
    var op, m := s.ops[o], s.mem;
    var op' := op.(failed := Put21(op.failed, level, At(op.failed, level) + 1), pc := Research(level, op.prev[level]));
    SwingFailsOk(cmp, m, op, op', level);
    assert StepSwingPrev(s, o, level) == Now(s, o, op');
    LocalStep(cmp, s, o, op');
  }

  // -------------------- searching again --------------------

  /** Above level 0 the call's own node is the only one with its key, and it is not linked there yet:
      the assertion on the level cannot fail. */
  lemma NoDuplicateAbove(cmp: Comparator, m: Memory, op: Op, level: nat, p: nat)
    requires TotalOrder(cmp) && MemoryOk(cmp, m) && op.call.Put? && Owns(m, op, level) && level <= op.pick
    requires p in m.linked[level] && p in m.heap && p != HEAD && m.heap[p].key == op.call.key
    ensures level == 0
  {
    OwnFacts(m, op, level);
    Downward(cmp, m, level, p);
    LevelZero(cmp, m);
    assert m.linked[0] == m.linked[0];
  }

  lemma ResearchStep(cmp: Comparator, s: State, o: nat)
    requires MayStep(cmp, s, o) && s.ops[o].call.Put? && s.ops[o].pc.Research?
    ensures GoodStep(cmp, s, StepResearch(cmp, s, o, s.ops[o].pc.level, s.ops[o].pc.before), o)
  {
    hide GoodStep, HeapOk, LevelsOk, HeightOk;
    var op, m, level, before := s.ops[o], s.mem, s.ops[o].pc.level, s.ops[o].pc.before;
    ProbeFinds(cmp, m, level, before, op.call.key);
    match Probe(cmp, m.heap, op.call.key, before, level)
    case Onward(n) =>
      var op' := op.(pc := Research(level, n));
      BudgetsKept(m, op, op');
      SplicesKept(cmp, s.concurrent, m, op, op', level + 1, op.pick + 1);
      assert Owns(m, op', level);
      LocalStep(cmp, s, o, op');
    case Found(p, n) =>
      if p == n {
        NoDuplicateAbove(cmp, m, op, level, p);
        DuplicateStep(cmp, s, o, level, p);
      } else {
        ResearchFound(cmp, s, o, level, p, n);
      }
  }

  lemma ResearchFoundOk(cmp: Comparator, concurrent: bool, m: Memory, op: Op, level: nat, p: nat, n: nat)
    requires MemoryOk(cmp, m) && Budgets(m, op) && Linking(cmp, concurrent, m, op, level, level + 1)
    requires Standing(cmp, m, level, p, op.call.key) && p != 0 && Next(m.heap, p, level) == n
    requires n != 0 ==> n in m.linked[level] && n in m.heap && AfterKey(cmp, m.heap, n, op.call.key)
    ensures var op' := EnterLevel(Splice(op, m, level, p, n), concurrent, level);
            PutOk(cmp, concurrent, m, op') && op'.pc == if level == 0 && !concurrent then BackOwn else StoreNext(level)
    ensures var op' := EnterLevel(Splice(op, m, level, p, n), concurrent, level);
            op'.call == op.call && op'.node == op.node && op'.at == op.at
  {
    hide HeapOk, LevelsOk, HeightOk;
    var op1 := Splice(op, m, level, p, n);
    assert Budget(m, op, level);
    SpliceRecorded(cmp, concurrent, m, op, level, p, n);
    BudgetsKept(m, op, op1);
    SplicesKept(cmp, concurrent, m, op, op1, level + 1, op.pick + 1);
    assert Splices(cmp, concurrent, m, op1, level, op.pick + 1);
    assert Owns(m, op1, level);
    EnterLevelOk(cmp, concurrent, m, op1, level);
  }

  lemma ResearchFound(cmp: Comparator, s: State, o: nat, level: nat, p: nat, n: nat)
    requires MayStep(cmp, s, o) && s.ops[o].call.Put? && s.ops[o].pc.Research? && s.ops[o].pc.level == level
    requires Standing(cmp, s.mem, level, p, s.ops[o].call.key) && p != 0 && Next(s.mem.heap, p, level) == n && p != n
    requires n != 0 ==> n in s.mem.linked[level] && n in s.mem.heap && AfterKey(cmp, s.mem.heap, n, s.ops[o].call.key)
    ensures GoodStep(cmp, s, Now(s, o, EnterLevel(Splice(s.ops[o], s.mem, level, p, n), s.concurrent, level)), o)
  {
    hide TotalOrder, GoodStep, HeapOk, LevelsOk, HeightOk;
    var op, m := s.ops[o], s.mem;
    ResearchFoundOk(cmp, s.concurrent, m, op, level, p, n);
    LocalStep(cmp, s, o, EnterLevel(Splice(op, m, level, p, n), s.concurrent, level));
  }
}
