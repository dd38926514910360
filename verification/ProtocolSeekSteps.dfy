/** The steps of a seek, and the answer at its last load. */
module ProtocolSeekSteps {
  import opened ByteStrings
  import opened Comparators
  import opened Levels
  import opened Chains
  import opened MapSpec
  import opened Seeks
  import opened Protocol
  import opened ProtocolInvariant
  import opened ProtocolEffects
  import opened ProtocolSteps

  /** A link followed from a linked node leads to a linked node, one level down as well. */
  lemma WalkStays(cmp: Comparator, m: Memory, level: nat, cursor: nat)
    requires MemoryOk(cmp, m) && level < MAX_HEIGHT && cursor in m.linked[level]
    ensures HasLevel(m.heap, cursor, level)
    ensures var n := Next(m.heap, cursor, level);
            n != 0 ==> n in m.linked[level] && n != HEAD && HasLevel(m.heap, n, level)
    ensures level > 0 ==> cursor in m.linked[level - 1] && HasLevel(m.heap, cursor, level - 1)
  {
    assert LevelOk(cmp, m.heap, m.linked[level], level);
    if level > 0 {
      assert LevelOk(cmp, m.heap, m.linked[level - 1], level - 1);
    }
  }

  /** A seek that moves on. */
  lemma SeekMoves(cmp: Comparator, s: State, o: nat, pc: Pc)
    requires Ground(cmp, s, o) && !s.ops[o].call.Put? && s.ops[o].node == 0
    requires Effective(s.ops[o]) == None && (pc.Walk? || pc.StepOver?)
    requires SeekOk(cmp, s.mem, s.ops[o].(pc := pc))
    ensures GoodStep(cmp, s, Goto(s, o, pc), o)
  {
    LocalStep(cmp, s, o, s.ops[o].(pc := pc));
  }

  /** A seek that answers. */
  lemma SeekFinishes(cmp: Comparator, s: State, o: nat, answer: Answer)
    requires Ground(cmp, s, o) && !s.ops[o].call.Put? && s.ops[o].node == 0 && Effective(s.ops[o]) == None
    requires answer.SeekAnswer? && LevelOk(cmp, s.mem.heap, s.mem.linked[0], 0)
    requires Legal(cmp, Contents(s.mem.heap, s.mem.linked[0]), s.ops[o].call, answer)
    ensures GoodStep(cmp, s, Finish(s, o, answer), o)
  {
    LocalFinish(cmp, s, o, answer);
  }

  ghost predicate AtWalk(cmp: Comparator, s: State, o: nat, level: nat, cursor: nat) {
    && Ground(cmp, s, o) && s.ops[o].pc == Walk(level, cursor) && s.ops[o].node == 0
    && level < MAX_HEIGHT && cursor in s.mem.linked[level] && HasLevel(s.mem.heap, cursor, level)
  }

  lemma FindLastStep(cmp: Comparator, s: State, o: nat, level: nat, cursor: nat)
    requires AtWalk(cmp, s, o, level, cursor) && s.ops[o].call.FindLast?
    ensures GoodStep(cmp, s, StepWalk(cmp, s, o, level, cursor), o)
  {
    hide GoodStep, HeapOk;
    var m := s.mem;
    var n := Next(m.heap, cursor, level);
    WalkStays(cmp, m, level, cursor);
    if n != 0 {
      SeekMoves(cmp, s, o, Walk(level, n));
    } else if level > 0 {
      SeekMoves(cmp, s, o, Walk(level - 1, cursor));
    } else {
      LevelZero(cmp, m);
      LastNode(cmp, m.heap, m.linked[0], cursor);
      SeekFinishes(cmp, s, o, SeekAnswer(EntryAt(m.heap, cursor)));
    }
  }

  lemma LowerBoundStep(cmp: Comparator, s: State, o: nat, level: nat, cursor: nat)
    requires AtWalk(cmp, s, o, level, cursor) && s.ops[o].call.LowerBound?
    requires BeforeKey(cmp, s.mem.heap, cursor, s.ops[o].call.key)
    ensures GoodStep(cmp, s, StepWalk(cmp, s, o, level, cursor), o)
  {
    hide GoodStep, HeapOk;
    var m, key := s.mem, s.ops[o].call.key;
    var n := Next(m.heap, cursor, level);
    WalkStays(cmp, m, level, cursor);
    LevelZero(cmp, m);
    if n != 0 && cmp(m.heap[n].key, key) == Less {
      SeekMoves(cmp, s, o, Walk(level, n));
    } else if n != 0 && cmp(m.heap[n].key, key) == Equal {
      Downward(cmp, m, level, n);
      HitNode(cmp, m.heap, m.linked[0], n, key, false);
      SeekFinishes(cmp, s, o, SeekAnswer(EntryAt(m.heap, n)));
    } else if level > 0 {
      SeekMoves(cmp, s, o, Walk(level - 1, cursor));
    } else {
      GapAbove(cmp, m.heap, m.linked[0], cursor, key, true);
      SeekFinishes(cmp, s, o, if n == 0 then SeekAnswer(None) else SeekAnswer(EntryAt(m.heap, n)));
    }
  }

  lemma FindNearStep(cmp: Comparator, s: State, o: nat, level: nat, cursor: nat)
    requires AtWalk(cmp, s, o, level, cursor) && s.ops[o].call.FindNear?
    requires BeforeKey(cmp, s.mem.heap, cursor, s.ops[o].call.key)
    ensures GoodStep(cmp, s, StepWalk(cmp, s, o, level, cursor), o)
  {
    hide GoodStep, HeapOk;
    var m, call := s.mem, s.ops[o].call;
    var n := Next(m.heap, cursor, level);
    WalkStays(cmp, m, level, cursor);
    if n != 0 && cmp(m.heap[n].key, call.key) == Less {
      SeekMoves(cmp, s, o, Walk(level, n));
    } else if n != 0 && cmp(m.heap[n].key, call.key) == Equal && (call.allowEqual || !call.less) {
      FindNearHit(cmp, s, o, level, cursor, n);
    } else if level > 0 {
      SeekMoves(cmp, s, o, Walk(level - 1, cursor));
    } else {
      FindNearLands(cmp, s, o, cursor, n);
    }
  }

  lemma FindNearHit(cmp: Comparator, s: State, o: nat, level: nat, cursor: nat, n: nat)
    requires AtWalk(cmp, s, o, level, cursor) && s.ops[o].call.FindNear?
    requires n == Next(s.mem.heap, cursor, level) != 0 && n in s.mem.linked[level] && n != HEAD
             && HasLevel(s.mem.heap, n, level)
    requires var call := s.ops[o].call; cmp(s.mem.heap[n].key, call.key) == Equal && (call.allowEqual || !call.less)
    ensures GoodStep(cmp, s, StepWalk(cmp, s, o, level, cursor), o)
  {
    hide GoodStep, HeapOk;
    var m, call := s.mem, s.ops[o].call;
    Downward(cmp, m, level, n);
    LevelZero(cmp, m);
    if call.allowEqual {
      HitNode(cmp, m.heap, m.linked[0], n, call.key, call.less);
      SeekFinishes(cmp, s, o, SeekAnswer(EntryAt(m.heap, n)));
    } else {
      SeekMoves(cmp, s, o, StepOver(n));
    }
  }

  /** On level 0 the walk stands in the gap of its key. */
  lemma FindNearLands(cmp: Comparator, s: State, o: nat, cursor: nat, n: nat)
    requires AtWalk(cmp, s, o, 0, cursor) && s.ops[o].call.FindNear?
    requires BeforeKey(cmp, s.mem.heap, cursor, s.ops[o].call.key)
    requires n == Next(s.mem.heap, cursor, 0)
             && (n != 0 ==> n in s.mem.linked[0] && n != HEAD && HasLevel(s.mem.heap, n, 0))
    requires var call := s.ops[o].call;
             n != 0 ==> cmp(s.mem.heap[n].key, call.key) != Less
                        && (cmp(s.mem.heap[n].key, call.key) == Equal ==> !call.allowEqual && call.less)
    ensures GoodStep(cmp, s, StepWalk(cmp, s, o, 0, cursor), o)
  {
    hide GoodStep, HeapOk, Nearest;
    var m, call := s.mem, s.ops[o].call;
    LevelZero(cmp, m);
    if call.less {
      GapBelow(cmp, m.heap, m.linked[0], cursor, call.key, call.allowEqual);
      SeekFinishes(cmp, s, o, SeekAnswer(EntryAt(m.heap, cursor)));
    } else {
      GapAbove(cmp, m.heap, m.linked[0], cursor, call.key, call.allowEqual);
      SeekFinishes(cmp, s, o, if n == 0 then SeekAnswer(None) else SeekAnswer(EntryAt(m.heap, n)));
    }
  }

  lemma StepOverStep(cmp: Comparator, s: State, o: nat)
    requires MayStep(cmp, s, o) && !s.ops[o].call.Put? && s.ops[o].pc.StepOver?
    ensures GoodStep(cmp, s, StepStepOver(s, o, s.ops[o].pc.node), o)
  {
    var m, x := s.mem, s.ops[o].pc.node;
    LevelZero(cmp, m);
    AfterNode(cmp, m.heap, m.linked[0], x, s.ops[o].call.key);
    var n := Next(m.heap, x, 0);
    SeekFinishes(cmp, s, o, SeekAnswer(if n == 0 then None else EntryAt(m.heap, n)));
  }

  lemma WalkStep(cmp: Comparator, s: State, o: nat)
    requires MayStep(cmp, s, o) && !s.ops[o].call.Put? && s.ops[o].pc.Walk?
    ensures GoodStep(cmp, s, StepWalk(cmp, s, o, s.ops[o].pc.level, s.ops[o].pc.cursor), o)
  {
    match s.ops[o].call
    case FindLast => FindLastStep(cmp, s, o, s.ops[o].pc.level, s.ops[o].pc.cursor);
    case LowerBound(_) => LowerBoundStep(cmp, s, o, s.ops[o].pc.level, s.ops[o].pc.cursor);
    case FindNear(_, _, _) => FindNearStep(cmp, s, o, s.ops[o].pc.level, s.ops[o].pc.cursor);
  }
}
