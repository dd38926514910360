/** Calls tolerate each other's steps. */
module ProtocolInterference {
  import opened ByteStrings
  import opened Comparators
  import opened Levels
  import opened Protocol
  import opened ProtocolInvariant

  lemma EvolvesSelf(m: Memory, mine: nat)
    requires |m.linked| == |m.links| == MAX_HEIGHT && m.height < MAX_HEIGHT
    ensures Evolves(m, m, mine)
  {
  }

  lemma EvolvesWeaken(m: Memory, m': Memory, mine: nat)
    requires Evolves(m, m', 0)
    ensures Evolves(m, m', mine)
  {
  }

  lemma EvolvesBasics(m: Memory, m': Memory, mine: nat)
    requires Evolves(m, m', mine)
    ensures |m.linked| == |m'.linked| == |m.links| == |m'.links| == MAX_HEIGHT
    ensures m'.capacity == m.capacity && m.height <= m'.height < MAX_HEIGHT
  {
  }

  ghost predicate Undisturbed(concurrent: bool, m: Memory, m': Memory, op: Op) {
    concurrent || !Writing(op) || m' == m
  }

  lemma SplicesStable(cmp: Comparator, concurrent: bool, m: Memory, m': Memory, mine: nat, op: Op, lo: nat, hi: nat)
    requires Evolves(m, m', mine) && Ready(m, op) && Ready(m', op) && hi <= MAX_HEIGHT
    requires Splices(cmp, concurrent, m, op, lo, hi)
    requires concurrent || forall j {:trigger m.links[j]} :: lo <= j < hi ==> m'.links[j] == m.links[j]
    ensures Splices(cmp, concurrent, m', op, lo, hi)
  {
    forall j | lo <= j < hi ensures SpliceOk(cmp, concurrent, m', op, j) {
      assert SpliceOk(cmp, concurrent, m, op, j);
      assert m.links[j] == m.links[j];
      SpliceStable(cmp, concurrent, m, m', mine, op, j);
    }
  }

  lemma SpliceStable(cmp: Comparator, concurrent: bool, m: Memory, m': Memory, mine: nat, op: Op, j: nat)
    requires Evolves(m, m', mine) && Ready(m, op) && Ready(m', op) && j < MAX_HEIGHT
    requires SpliceOk(cmp, concurrent, m, op, j)
    requires concurrent || m'.links[j] == m.links[j]
    ensures SpliceOk(cmp, concurrent, m', op, j)
  {
    assert m.links[j] <= m'.links[j];
    assert op.prev[j] in m.heap;
  }

  lemma BudgetsStable(m: Memory, m': Memory, mine: nat, op: Op)
    requires Evolves(m, m', mine) && (mine == 0 || mine != op.node)
    requires Budgets(m, op)
    ensures Budgets(m', op)
  {
    forall j | 0 <= j < MAX_HEIGHT ensures Budget(m', op, j) {
      assert Budget(m, op, j) by {
        assert op.failed[j] >= 0;
      }
      assert m.links[j] <= m'.links[j];
      assert op.node in m'.linked[j] ==> op.node in m.linked[j];
    }
  }

  lemma OwnsStable(m: Memory, m': Memory, mine: nat, op: Op, level: nat)
    requires op.call.Put? && Evolves(m, m', mine) && mine != op.node && Owns(m, op, level)
    ensures Owns(m', op, level)
  {
    assert op.node in m'.heap && m'.heap[op.node].key == op.call.key;
    forall j | 0 <= j < MAX_HEIGHT ensures op.node in m'.linked[j] <==> j < level {
      assert m.linked[j] == m.linked[j];
    }
  }

  lemma StandingStable(cmp: Comparator, m: Memory, m': Memory, mine: nat, level: nat, x: nat, key: Bytes)
    requires Evolves(m, m', mine) && Standing(cmp, m, level, x, key)
    ensures Standing(cmp, m', level, x, key)
  {
    assert x in m'.heap && m'.heap[x].key == m.heap[x].key;
  }

  lemma SeekStable(cmp: Comparator, m: Memory, m': Memory, mine: nat, op: Op)
    requires Evolves(m, m', mine) && !op.call.Put? && SeekOk(cmp, m, op)
    ensures SeekOk(cmp, m', op)
  {
    match op.pc
    case Walk(level, cursor) => assert m'.heap[cursor].key == m.heap[cursor].key;
    case StepOver(x) => assert m'.heap[x].key == m.heap[x].key;
    case _ =>
  }

  lemma SettledStable(m: Memory, m': Memory, mine: nat, op: Op)
    requires op.call.Put? && Evolves(m, m', mine) && (mine == 0 || mine != op.node) && Settled(m, op)
    ensures Settled(m', op)
  {
    BudgetsStable(m, m', mine, op);
    if op.node != 0 && Owns(m, op, op.pick + 1) {
      OwnsStable(m, m', mine, op, op.pick + 1);
    } else if op.node != 0 {
      OwnsStable(m, m', mine, op, 0);
    }
  }

  lemma LinkingStable(cmp: Comparator, concurrent: bool, m: Memory, m': Memory, mine: nat, op: Op, level: nat,
      from: nat)
    requires op.call.Put? && Evolves(m, m', mine) && mine != op.node && (concurrent || m'.links == m.links)
    requires Linking(cmp, concurrent, m, op, level, from)
    ensures Linking(cmp, concurrent, m', op, level, from)
  {
    OwnsStable(m, m', mine, op, level);
    SplicesStable(cmp, concurrent, m, m', mine, op, from, op.pick + 1);
  }

  /** Nobody else stores a link of a node not linked there. */
  lemma OwnLinkStable(m: Memory, m': Memory, mine: nat, op: Op, level: nat)
    requires op.call.Put? && Evolves(m, m', mine) && mine != op.node && Owns(m, op, level) && level <= op.pick
    ensures HasLevel(m.heap, op.node, level) && HasLevel(m'.heap, op.node, level)
    ensures Next(m'.heap, op.node, level) == Next(m.heap, op.node, level)
  {
    assert m.linked[level] == m.linked[level];
    assert op.node in m'.heap;
  }

  lemma SetupStable(cmp: Comparator, m: Memory, m': Memory, mine: nat, op: Op)
    requires op.call.Put? && Evolves(m, m', mine) && (mine == 0 || mine != op.node)
    requires op.pc.Search? || op.pc.AllocLoad? || op.pc.AllocCas?
    requires PutOk(cmp, true, m, op)
    ensures PutOk(cmp, true, m', op)
  {
    hide Splices, Standing, Evolves, Budget;
    EvolvesBasics(m, m', mine);
    BudgetsStable(m, m', mine, op);
    match op.pc
    case Search(level, before) =>
      SplicesStable(cmp, true, m, m', mine, op, level + 1, MAX_HEIGHT);
      StandingStable(cmp, m, m', mine, level, before, op.call.key);
    case AllocLoad => SplicesStable(cmp, true, m, m', mine, op, 0, MAX_HEIGHT);
    case AllocCas(_) => SplicesStable(cmp, true, m, m', mine, op, 0, MAX_HEIGHT);
  }

  lemma LinkingStepsStable(cmp: Comparator, m: Memory, m': Memory, mine: nat, op: Op)
    requires op.call.Put? && Evolves(m, m', mine) && (mine == 0 || mine != op.node)
    requires op.pc.Raise? || op.pc.StoreNext? || op.pc.SwingPrev? || op.pc.Research?
    requires PutOk(cmp, true, m, op)
    ensures PutOk(cmp, true, m', op)
  {
    hide Splices, Standing, Evolves, Budget;
    EvolvesBasics(m, m', mine);
    BudgetsStable(m, m', mine, op);
    match op.pc
    case Raise(_) =>
      OwnsStable(m, m', mine, op, 0);
      SplicesStable(cmp, true, m, m', mine, op, 0, MAX_HEIGHT);
    case StoreNext(level) => LinkingStable(cmp, true, m, m', mine, op, level, level);
    case SwingPrev(level) =>
      LinkingStable(cmp, true, m, m', mine, op, level, level);
      OwnLinkStable(m, m', mine, op, level);
    case Research(level, before) =>
      LinkingStable(cmp, true, m, m', mine, op, level, level + 1);
      StandingStable(cmp, m, m', mine, level, before, op.call.key);
  }

  /** A put in progress survives any step of another call. */
  lemma PutStable(cmp: Comparator, concurrent: bool, m: Memory, m': Memory, mine: nat, op: Op)
    requires op.call.Put? && Evolves(m, m', mine) && (mine == 0 || mine != op.node)
    requires Undisturbed(concurrent, m, m', op)
    requires PutOk(cmp, concurrent, m, op)
    ensures PutOk(cmp, concurrent, m', op)
  {
    hide Splices, Standing, Evolves, Budgets, Owns, Settled;
    if m' != m {
      match op.pc
      case ReadHeight =>
      case OutOfMemory =>
      case Respond(a) => SettledStable(m, m', mine, op);
      case Done(a) => SettledStable(m, m', mine, op);
      case Search(_, _) => SetupStable(cmp, m, m', mine, op);
      case AllocLoad => SetupStable(cmp, m, m', mine, op);
      case AllocCas(_) => SetupStable(cmp, m, m', mine, op);
      case Raise(_) => LinkingStepsStable(cmp, m, m', mine, op);
      case StoreNext(_) => LinkingStepsStable(cmp, m, m', mine, op);
      case SwingPrev(_) => LinkingStepsStable(cmp, m, m', mine, op);
      case Research(_, _) => LinkingStepsStable(cmp, m, m', mine, op);
      case _ =>
    }
  }

  lemma OpStable(cmp: Comparator, concurrent: bool, m: Memory, m': Memory, mine: nat, op: Op)
    requires Evolves(m, m', mine) && (mine == 0 || mine != op.node)
    requires Undisturbed(concurrent, m, m', op)
    requires OpOk(cmp, concurrent, m, op)
    ensures OpOk(cmp, concurrent, m', op)
  {
    if op.call.Put? {
      PutStable(cmp, concurrent, m, m', mine, op);
    } else {
      SeekStable(cmp, m, m', mine, op);
    }
  }
}
