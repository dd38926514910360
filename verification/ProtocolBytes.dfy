/** The concurrent list over raw bytes: every store of every step, done on the arena's bytes, keeps them standing for
    the heap that the protocol computes with. */
module ProtocolBytes {
  import opened ByteStrings
  import opened Comparators
  import opened Levels
  import opened NodeSizes
  import opened NodeLayout
  import opened Arenas
  import opened MapSpec
  import Protocol
  import opened ProtocolInvariant
  import opened ProtocolRuns
  import opened ProtocolPutSteps

  // -------------------- steps on bytes --------------------

  /** Store an offset in a word. */
  function StoreWord(b: Bytes, at: nat, target: nat): Bytes {
    if at + 8 <= |b| then Store(b, at, LittleEndian(target, 8)) else b
  }

  /** A compare-and-swap on a tower word; a single writer just stores. */
  function SwingWord(b: Bytes, concurrent: bool, at: nat, expected: nat, target: nat): Bytes {
    if at + 8 <= |b| && (!concurrent || LoadInt(b, at, 8) == expected) then Store(b, at, LittleEndian(target, 8)) else b
  }

  function LinkAt(x: nat, level: nat): nat {
    x + TOWER_OFF + level * 8
  }

  /** The stores of one step, computed from the bytes, the bump pointer and the call's own variables. */
  function StepBytes(b: Bytes, top: nat, concurrent: bool, op: Protocol.Op): Bytes {
    match op.pc
    case AllocCas(current) =>
      var x := OrHead(current);
      if op.call.Put? && top == current && x + NodeSize(op.call.key, op.call.value, op.pick) <= |b|
      then WriteNode(b, x, op.call.key, op.call.value, op.pick) else b
    case BackOwn => StoreWord(b, op.node + PREV_OFF, Protocol.At(op.prev, 0))
    case BackNext => StoreWord(b, Protocol.At(op.next, 0) + PREV_OFF, op.node)
    case StoreNext(level) => StoreWord(b, LinkAt(op.node, level), Protocol.At(op.next, level))
    case SwingPrev(level) => SwingWord(b, concurrent, LinkAt(Protocol.At(op.prev, level), level),
      Protocol.At(op.next, level), op.node)
    case _ => b
  }

  /** The arena's bytes after a run: whatever bytes the system handed out, then the head node, then the steps. */
  ghost function RunBytes(cmp: Comparator, initial: Bytes, concurrent: bool, acts: seq<Protocol.Action>): Bytes
    requires |initial| >= 192
  {
    if acts == [] then WriteNode(initial, HEAD, [], [], MAX_HEIGHT - 1)
    else
      var front, a := acts[..|acts| - 1], acts[|acts| - 1];
      var b, s := RunBytes(cmp, initial, concurrent, front), Protocol.Run(cmp, |initial|, concurrent, front);
      if a.Go? && a.o in s.ops then StepBytes(b, s.mem.top, s.concurrent, s.ops[a.o]) else b
  }

  // -------------------- what a step needs --------------------

  predicate Fits(call: Call) {
    call.Put? ==> |call.key| < U32_SIZE && |call.value| < U32_SIZE
  }

  /** The bytes stand for the shared heap. */
  ghost predicate Stands(b: Bytes, m: Protocol.Memory, order: seq<nat>) {
    |b| == m.capacity < U64_SIZE && Represents(b, m.top, m.heap, order)
  }

  /** A put about to write a link holds offsets of nodes, or 0 for its successor. */
  lemma LinkingOffsets(cmp: Comparator, concurrent: bool, m: Protocol.Memory, op: Protocol.Op, level: nat)
    requires op.call.Put? && Linking(cmp, concurrent, m, op, level, level)
    ensures HasLevel(m.heap, op.node, level) && level < |m.linked| && level < |m.links|
    ensures HasLevel(m.heap, Protocol.At(op.prev, level), level)
    ensures Protocol.At(op.next, level) == 0 || Protocol.At(op.next, level) in m.heap
  {
    OwnFacts(m, op, level);
    assert SpliceOk(cmp, concurrent, m, op, level);
  }

  lemma WordStored(b: Bytes, m: Protocol.Memory, order: seq<nat>, x: nat, level: nat, target: nat)
    requires Stands(b, m, order) && HasLevel(m.heap, x, level) && (target == 0 || target in m.heap)
    ensures LinkAt(x, level) + 8 <= |b| && LoadInt(b, LinkAt(x, level), 8) == Next(m.heap, x, level)
    ensures Stands(StoreWord(b, LinkAt(x, level), target), m.(heap := SetNext(m.heap, x, level, target)), order)
  {
    hide Represents;
    OffsetsFit(b, m.top, m.heap, order);
    NodeReads(b, m.top, m.heap, order, x);
    TowerStored(b, m.top, m.heap, order, x, level, target);
    assert NextAt(b, x, level) == m.heap[x].tower[level];
  }

  lemma BackStored(b: Bytes, m: Protocol.Memory, order: seq<nat>, x: nat, target: nat)
    requires Stands(b, m, order) && x in m.heap && target in m.heap
    ensures Stands(StoreWord(b, x + PREV_OFF, target), Protocol.SetBack(m, x, target), order)
  {
    hide Represents;
    OffsetsFit(b, m.top, m.heap, order);
    PrevStored(b, m.top, m.heap, order, x, target);
  }

  // -------------------- every step --------------------

  lemma BumpOnBytes(b: Bytes, m: Protocol.Memory, order: seq<nat>, op: Protocol.Op, current: nat)
    requires Stands(b, m, order) && op.pc == Protocol.AllocCas(current) && op.call.Put? && Fits(op.call)
             && op.pick < MAX_HEIGHT
    requires m.top == current && OrHead(current) + NodeBytes(op.call.key, op.call.value, op.pick) <= m.capacity
    ensures var node := FreshNode(op.call.key, op.call.value, op.pick);
            Stands(StepBytes(b, m.top, true, op), Protocol.Bump(m, OrHead(current), node), order + [OrHead(current)])
    ensures StepBytes(b, m.top, false, op) == StepBytes(b, m.top, true, op)
  {
    hide Represents, WriteNode;
    var x := OrHead(current);
    RoundedUp(NodeSize(op.call.key, op.call.value, op.pick));
    NodeAdded(b, StepBytes(b, m.top, true, op), m.top, m.heap, order, x, FreshNode(op.call.key, op.call.value, op.pick),
              x + NodeBytes(op.call.key, op.call.value, op.pick));
  }

  lemma AllocCasOnBytes(cmp: Comparator, s: Protocol.State, o: nat, b: Bytes, order: seq<nat>)
      returns (order': seq<nat>)
    requires o in s.ops && s.ops[o].call.Put? && OpOk(cmp, s.concurrent, s.mem, s.ops[o]) && Fits(s.ops[o].call)
    requires s.ops[o].pc.AllocCas? && Stands(b, s.mem, order)
    ensures Stands(StepBytes(b, s.mem.top, s.concurrent, s.ops[o]),
            Protocol.StepAllocCas(s, o, s.ops[o].pc.current).mem, order')
  {
    hide Stands;
    var op, m := s.ops[o], s.mem;
    if m.top == op.pc.current {
      BumpOnBytes(b, m, order, op, op.pc.current);
      order' := order + [OrHead(op.pc.current)];
    } else {
      order' := order;
    }
  }

  lemma BackOwnOnBytes(cmp: Comparator, s: Protocol.State, o: nat, b: Bytes, order: seq<nat>)
    requires o in s.ops && s.ops[o].call.Put? && OpOk(cmp, s.concurrent, s.mem, s.ops[o])
    requires s.ops[o].pc.BackOwn? && Stands(b, s.mem, order)
    ensures Stands(StepBytes(b, s.mem.top, s.concurrent, s.ops[o]), Protocol.StepBackOwn(s, o).mem, order)
  {
    hide Stands;
    LinkingOffsets(cmp, s.concurrent, s.mem, s.ops[o], 0);
    BackStored(b, s.mem, order, s.ops[o].node, Protocol.At(s.ops[o].prev, 0));
  }

  lemma BackNextOnBytes(cmp: Comparator, s: Protocol.State, o: nat, b: Bytes, order: seq<nat>)
    requires o in s.ops && s.ops[o].call.Put? && OpOk(cmp, s.concurrent, s.mem, s.ops[o])
    requires s.ops[o].pc.BackNext? && Stands(b, s.mem, order)
    ensures Stands(StepBytes(b, s.mem.top, s.concurrent, s.ops[o]), Protocol.StepBackNext(s, o).mem, order)
  {
    hide Stands;
    LinkingOffsets(cmp, s.concurrent, s.mem, s.ops[o], 0);
    BackStored(b, s.mem, order, Protocol.At(s.ops[o].next, 0), s.ops[o].node);
  }

  lemma StoreNextOnBytes(cmp: Comparator, s: Protocol.State, o: nat, b: Bytes, order: seq<nat>)
    requires o in s.ops && s.ops[o].call.Put? && OpOk(cmp, s.concurrent, s.mem, s.ops[o])
    requires s.ops[o].pc.StoreNext? && Stands(b, s.mem, order)
    ensures Stands(StepBytes(b, s.mem.top, s.concurrent, s.ops[o]),
            Protocol.StepStoreNext(s, o, s.ops[o].pc.level).mem, order)
  {
    hide Stands;
    var op, level := s.ops[o], s.ops[o].pc.level;
    LinkingOffsets(cmp, s.concurrent, s.mem, op, level);
    WordStored(b, s.mem, order, op.node, level, Protocol.At(op.next, level));
  }

  lemma SwingOffsets(cmp: Comparator, concurrent: bool, m: Protocol.Memory, op: Protocol.Op, level: nat)
    requires op.call.Put? && OpOk(cmp, concurrent, m, op) && op.pc == Protocol.SwingPrev(level)
    ensures op.node in m.heap && level < |m.linked| && level < |m.links|
    ensures HasLevel(m.heap, Protocol.At(op.prev, level), level)
  {
    LinkingOffsets(cmp, concurrent, m, op, level);
  }

  lemma WordSwung(b: Bytes, m: Protocol.Memory, m': Protocol.Memory, order: seq<nat>, concurrent: bool, p: nat,
      level: nat, expected: nat, target: nat)
    requires Stands(b, m, order) && HasLevel(m.heap, p, level) && target in m.heap
    requires m'.top == m.top && m'.capacity == m.capacity
    requires m'.heap == if !concurrent || Next(m.heap, p, level) == expected
             then SetNext(m.heap, p, level, target) else m.heap
    ensures Stands(SwingWord(b, concurrent, LinkAt(p, level), expected, target), m', order)
  {
    hide Represents;
    WordStored(b, m, order, p, level, target);
  }

  lemma SwingOnHeap(s: Protocol.State, o: nat, level: nat, p: nat)
    requires o in s.ops && p == Protocol.At(s.ops[o].prev, level) && HasLevel(s.mem.heap, p, level)
    requires level < |s.mem.linked| && level < |s.mem.links|
    ensures var m, m' := s.mem, Protocol.StepSwingPrev(s, o, level).mem;
            && m'.top == m.top && m'.capacity == m.capacity
            && m'.heap == if !s.concurrent || Next(m.heap, p, level) == Protocol.At(s.ops[o].next, level)
                          then SetNext(m.heap, p, level, s.ops[o].node) else m.heap
  {
  }

  /** The comparison the hardware makes on the bytes is the comparison the protocol makes on the heap. */
  lemma SwingOnBytes(cmp: Comparator, s: Protocol.State, o: nat, b: Bytes, order: seq<nat>)
    requires o in s.ops && s.ops[o].call.Put? && OpOk(cmp, s.concurrent, s.mem, s.ops[o])
    requires s.ops[o].pc.SwingPrev? && Stands(b, s.mem, order)
    ensures Stands(StepBytes(b, s.mem.top, s.concurrent, s.ops[o]),
            Protocol.StepSwingPrev(s, o, s.ops[o].pc.level).mem, order)
  {
    hide OpOk, Stands, Protocol.StepSwingPrev;
    var op, level := s.ops[o], s.ops[o].pc.level;
    SwingOffsets(cmp, s.concurrent, s.mem, op, level);
    var p := Protocol.At(op.prev, level);
    SwingOnHeap(s, o, level, p);
    WordSwung(b, s.mem, Protocol.StepSwingPrev(s, o, level).mem, order, s.concurrent, p, level,
      Protocol.At(op.next, level), op.node);
  }

  /** All other steps only load. */
  lemma LoadsOnly(cmp: Comparator, s: Protocol.State, o: nat, spurious: bool)
    requires o in s.ops
    requires match s.ops[o].pc
             case AllocCas(_) => false case BackOwn => false case BackNext => false
             case StoreNext(_) => false case SwingPrev(_) => false case _ => true
    ensures var m' := Protocol.Advance(cmp, s, o, spurious).mem;
            m'.heap == s.mem.heap && m'.top == s.mem.top && m'.capacity == s.mem.capacity
  {
  }

  lemma StepOnBytes(cmp: Comparator, s: Protocol.State, o: nat, spurious: bool, b: Bytes, order: seq<nat>)
      returns (order': seq<nat>)
    requires o in s.ops && OpOk(cmp, s.concurrent, s.mem, s.ops[o]) && Fits(s.ops[o].call) && Stands(b, s.mem, order)
    ensures Stands(StepBytes(b, s.mem.top, s.concurrent, s.ops[o]), Protocol.Advance(cmp, s, o, spurious).mem, order')
  {
    order' := order;
    match s.ops[o].pc {
      case AllocCas(_) => hide Stands, StepBytes; order' := AllocCasOnBytes(cmp, s, o, b, order);
      case BackOwn => hide Stands, StepBytes; BackOwnOnBytes(cmp, s, o, b, order);
      case BackNext => hide Stands, StepBytes; BackNextOnBytes(cmp, s, o, b, order);
      case StoreNext(_) => hide Stands, StepBytes; StoreNextOnBytes(cmp, s, o, b, order);
      case SwingPrev(_) => hide Stands, StepBytes; SwingOnBytes(cmp, s, o, b, order);
      case _ => hide Represents; LoadsOnly(cmp, s, o, spurious);
    }
  }

  // -------------------- every run --------------------

  /** The lengths of all keys and values put fit the node header. */
  predicate AllFit(acts: seq<Protocol.Action>) {
    forall i :: 0 <= i < |acts| && acts[i].Start? ==> Fits(acts[i].call)
  }

  ghost predicate CallsFit(s: Protocol.State) {
    forall o {:trigger s.ops[o]} :: o in s.ops ==> Fits(s.ops[o].call)
  }

  lemma AdvanceKeepsCalls(cmp: Comparator, s: Protocol.State, o: nat, spurious: bool)
    requires TotalOrder(cmp) && Inv(cmp, s) && o in s.ops && CallsFit(s)
    ensures CallsFit(Protocol.Advance(cmp, s, o, spurious))
  {
    assert OpOk(cmp, s.concurrent, s.mem, s.ops[o]);
    hide TotalOrder, OpOk, Inv;
    if s.ops[o].call.Put? {
      PutTakesStep(cmp, s, o, spurious);
    } else {
      SeekTakesStep(cmp, s, o, spurious);
    }
  }

  lemma FreshOnBytes(b: Bytes, concurrent: bool)
    requires 192 <= |b| < U64_SIZE
    ensures Stands(WriteNode(b, HEAD, [], [], MAX_HEIGHT - 1), Protocol.Fresh(|b|, concurrent).mem, [HEAD])
  {
    hide Represents, WriteNode;
    EmptyArena(b);
    RoundedUp(NodeSize([], [], MAX_HEIGHT - 1));
    NodeAdded(b, WriteNode(b, HEAD, [], [], MAX_HEIGHT - 1), 0, map[], [], HEAD, HeadNode(),
      HEAD + NodeBytes([], [], MAX_HEIGHT - 1));
    assert [] + [HEAD] == [HEAD];
  }

  lemma EmptyArena(b: Bytes)
    ensures Represents(b, 0, map[], [])
  {
  }

  /** After every run, under every schedule, the bytes produced by the steps' stores stand for the protocol's heap:
      every node reads back with the key, value, links and back pointer the protocol works with. */
  lemma {:induction false} BytesStandForHeap(cmp: Comparator, initial: Bytes, concurrent: bool,
      acts: seq<Protocol.Action>) returns (order: seq<nat>)
    requires TotalOrder(cmp) && 192 <= |initial| < U64_SIZE && AllFit(acts)
    ensures var s := Protocol.Run(cmp, |initial|, concurrent, acts);
            && Stands(RunBytes(cmp, initial, concurrent, acts), s.mem, order)
            && s.concurrent == concurrent && CallsFit(s)
  {
    if acts == [] {
      order := [HEAD];
      FreshOnBytes(initial, concurrent);
    } else {
      var front, a := acts[..|acts| - 1], acts[|acts| - 1];
      order := BytesStandForHeap(cmp, initial, concurrent, front);
      RunInv(cmp, |initial|, concurrent, front);
      var s, b := Protocol.Run(cmp, |initial|, concurrent, front), RunBytes(cmp, initial, concurrent, front);
      assert acts[|acts| - 1] == a && (a.Start? ==> Fits(a.call));
      order := LastOnBytes(cmp, s, a, b, order);
      DoKeepsCalls(cmp, s, a);
    }
  }

  lemma LastOnBytes(cmp: Comparator, s: Protocol.State, a: Protocol.Action, b: Bytes, order: seq<nat>)
      returns (order': seq<nat>)
    requires Inv(cmp, s) && Stands(b, s.mem, order) && CallsFit(s)
    ensures var s', b' := Protocol.Do(cmp, s, a), if a.Go? && a.o in s.ops
            then StepBytes(b, s.mem.top, s.concurrent, s.ops[a.o]) else b;
            Stands(b', s'.mem, order') && s'.concurrent == s.concurrent
  {
    order' := order;
    if a.Go? && a.o in s.ops {
      assert OpOk(cmp, s.concurrent, s.mem, s.ops[a.o]);
      hide Stands, OpOk, Inv, StepBytes;
      order' := StepOnBytes(cmp, s, a.o, a.spurious, b, order);
      AdvanceKeepsMode(cmp, s, a.o, a.spurious);
    }
  }

  lemma DoKeepsCalls(cmp: Comparator, s: Protocol.State, a: Protocol.Action)
    requires TotalOrder(cmp) && Inv(cmp, s) && CallsFit(s) && (a.Start? ==> Fits(a.call))
    ensures CallsFit(Protocol.Do(cmp, s, a))
  {
    hide TotalOrder, Inv;
    if a.Go? && a.o in s.ops {
      AdvanceKeepsCalls(cmp, s, a.o, a.spurious);
    }
  }
}
