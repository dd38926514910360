/** Each kind of step, taken by one call, keeps that call's invariant and reports its effect honestly. */
module ProtocolSteps {
  import opened ByteStrings
  import opened Comparators
  import opened Levels
  import opened Chains
  import opened MapSpec
  import opened Protocol
  import opened ProtocolInvariant
  import opened ProtocolInterference
  import opened ProtocolEffects

  // -------------------- what a step owes --------------------

  /** Nothing but shared memory, the log and call `o` changes; only a put in progress touches memory. */
  ghost predicate Moves(cmp: Comparator, s: State, s': State, o: nat) {
    && o in s.ops && o in s'.ops && s'.ops == s.ops[o := s'.ops[o]] && s'.concurrent == s.concurrent
    && MemoryOk(cmp, s.mem) && MemoryOk(cmp, s'.mem)
    && var op, op' := s.ops[o], s'.ops[o];
       && Evolves(s.mem, s'.mem, op'.node)
       && (!Writing(op) ==> s'.mem == s.mem)
       && op'.call == op.call && (Writing(op') ==> Writing(op))
       && (op'.node == op.node || (op.node == 0 && op'.node !in s.mem.heap))
  }

  ghost predicate Silent(cmp: Comparator, s: State, s': State, o: nat)
    requires Moves(cmp, s, s', o)
  {
    var op, op' := s.ops[o], s'.ops[o];
    && s'.log == s.log && SameContents(cmp, s.mem, s'.mem)
    && Effective(op') == Effective(op)
    && (Effective(op).Some? ==>
          op'.at == op.at && op'.node == op.node && (op.node in s'.mem.linked[0] <==> op.node in s.mem.linked[0]))
  }

  ghost predicate Commits(cmp: Comparator, s: State, s': State, o: nat)
    requires Moves(cmp, s, s', o)
  {
    var op, op', m := s.ops[o], s'.ops[o], Contents(s.mem.heap, s.mem.linked[0]);
    && Effective(op) == None && Effective(op').Some? && op'.at == |s.log|
    && s'.log == s.log + [Event(o, op.call, Effective(op').value)]
    && Legal(cmp, m, op.call, Effective(op').value)
    && Contents(s'.mem.heap, s'.mem.linked[0]) == Effect(m, op.call)
    && (op.call.Put? ==> (op'.node in s'.mem.linked[0] <==> op.call.key !in m))
  }

  ghost predicate GoodStep(cmp: Comparator, s: State, s': State, o: nat) {
    && Moves(cmp, s, s', o)
    && OpOk(cmp, s'.concurrent, s'.mem, s'.ops[o])
    && (Silent(cmp, s, s', o) || Commits(cmp, s, s', o))
  }

  ghost predicate Ground(cmp: Comparator, s: State, o: nat) {
    TotalOrder(cmp) && MemoryOk(cmp, s.mem) && o in s.ops
  }

  ghost predicate MayStep(cmp: Comparator, s: State, o: nat) {
    Ground(cmp, s, o) && OpOk(cmp, s.concurrent, s.mem, s.ops[o])
  }

  /** A step that leaves memory alone and does not commit. */
  lemma LocalStep(cmp: Comparator, s: State, o: nat, op': Op)
    requires Ground(cmp, s, o)
    requires OpOk(cmp, s.concurrent, s.mem, op')
    requires var op := s.ops[o];
             && op'.call == op.call && op'.node == op.node && op'.at == op.at
             && (Writing(op') ==> Writing(op)) && Effective(op') == Effective(op)
    ensures GoodStep(cmp, s, Now(s, o, op'), o)
  {
    EvolvesSelf(s.mem, op'.node);
    LevelZero(cmp, s.mem);
  }

  /** A call that takes effect and responds without touching memory, its effect being none on the map. */
  lemma LocalFinish(cmp: Comparator, s: State, o: nat, answer: Answer)
    requires Ground(cmp, s, o) && Effective(s.ops[o]) == None
    requires OpOk(cmp, s.concurrent, s.mem, s.ops[o].(pc := Respond(answer), at := |s.log|))
    requires LevelOk(cmp, s.mem.heap, s.mem.linked[0], 0)
    requires var op, c := s.ops[o], Contents(s.mem.heap, s.mem.linked[0]);
             && Legal(cmp, c, op.call, answer) && Effect(c, op.call) == c
             && (op.call.Put? ==> op.node !in s.mem.linked[0] && op.call.key in c)
    ensures GoodStep(cmp, s, Finish(s, o, answer), o)
  {
    hide TotalOrder, HeapOk, LevelOk, Contents;
    EvolvesSelf(s.mem, s.ops[o].node);
    var s' := Finish(s, o, answer);
    assert Moves(cmp, s, s', o);
    assert Commits(cmp, s, s', o);
  }

  // -------------------- searching --------------------

  /** A probe from a node before the key either advances, or finds the gap, or finds the key's node. */
  lemma ProbeFinds(cmp: Comparator, m: Memory, level: nat, before: nat, key: Bytes)
    requires MemoryOk(cmp, m) && level < MAX_HEIGHT && Standing(cmp, m, level, before, key)
    ensures match Probe(cmp, m.heap, key, before, level)
            case Bad => false
            case Onward(n) => Standing(cmp, m, level, n, key)
            case Found(p, n) =>
              if p == n then
                p in m.linked[level] && p in m.heap && p != 0 && p != HEAD && cmp(m.heap[p].key, key) == Equal
              else
                p == before && p != 0 && Next(m.heap, p, level) == n
                && (n != 0 ==> n in m.linked[level] && n in m.heap && AfterKey(cmp, m.heap, n, key))
  {
    assert LevelOk(cmp, m.heap, m.linked[level], level);
    var n := Next(m.heap, before, level);
    if n != 0 {
      assert n in m.linked[level];
    }
  }

  lemma {:induction false} Downward(cmp: Comparator, m: Memory, i: nat, x: nat)
    requires LevelsOk(cmp, m) && i < MAX_HEIGHT && x in m.linked[i]
    ensures x in m.linked[0]
  {
    if i > 0 {
      Downward(cmp, m, i - 1, x);
    }
  }

  /** Above the list height there is only the head, so its link there is the terminator. */
  lemma EmptyLevel(cmp: Comparator, m: Memory, j: nat)
    requires MemoryOk(cmp, m) && m.height < j < MAX_HEIGHT
    ensures m.linked[j] == {HEAD} && HasLevel(m.heap, HEAD, j) && Next(m.heap, HEAD, j) == 0
  {
    assert LevelOk(cmp, m.heap, m.linked[j], j);
    assert HEAD in m.linked[j];
  }

  lemma HeadStands(cmp: Comparator, m: Memory, level: nat, key: Bytes)
    requires MemoryOk(cmp, m) && level < MAX_HEIGHT
    ensures Standing(cmp, m, level, HEAD, key)
  {
    assert LevelOk(cmp, m.heap, m.linked[level], level);
  }

  lemma FirstDescent(cmp: Comparator, concurrent: bool, m: Memory, op: Op)
    requires MemoryOk(cmp, m) && op.call.Put? && op.pick < MAX_HEIGHT && op.node == 0
    requires op.pc == Search(m.height, HEAD) && op.listHeight == m.height
    requires |op.prev| == |op.next| == |op.seen| == |op.base| == |op.failed| == MAX_HEIGHT + 1
    requires forall j {:trigger op.prev[j]} {:trigger op.failed[j]} :: 0 <= j < MAX_HEIGHT ==>
               && op.prev[j] == (if j > m.height then HEAD else 0) && op.next[j] == 0 && op.failed[j] == 0
               && op.seen[j] == op.base[j] == if j > m.height then m.links[j] else 0
    ensures PutOk(cmp, concurrent, m, op)
  {
    HeadStands(cmp, m, m.height, op.call.key);
    forall j | 0 <= j < MAX_HEIGHT ensures Budget(m, op, j) {
      assert op.failed[j] == 0;
      assert 0 !in m.linked[j] by {
        assert LevelOk(cmp, m.heap, m.linked[j], j);
      }
    }
    forall j | m.height + 1 <= j < MAX_HEIGHT ensures SpliceOk(cmp, concurrent, m, op, j) {
      assert op.prev[j] == HEAD;
      EmptyLevel(cmp, m, j);
    }
  }

  lemma ReadHeightStep(cmp: Comparator, s: State, o: nat)
    requires MayStep(cmp, s, o) && s.ops[o].pc == ReadHeight
    ensures GoodStep(cmp, s, StepReadHeight(s, o), o)
  {
    hide TotalOrder, GoodStep, HeapOk, LevelsOk;
    var op, m := s.ops[o], s.mem;
    var op' := StepReadHeight(s, o).ops[o];
    if op.call.Put? {
      FirstDescent(cmp, s.concurrent, m, op');
    } else {
      HeadStands(cmp, m, m.height, []);
    }
    LocalStep(cmp, s, o, op');
  }

  /** What `Splice` records holds: the gap was found at this very step. */
  lemma SpliceRecorded(cmp: Comparator, concurrent: bool, m: Memory, op: Op, level: nat, p: nat, n: nat)
    requires MemoryOk(cmp, m) && Ready(m, op) && level < MAX_HEIGHT
    requires Standing(cmp, m, level, p, op.call.key) && p != 0 && Next(m.heap, p, level) == n
    requires n != 0 ==> n in m.linked[level] && n in m.heap && AfterKey(cmp, m.heap, n, op.call.key)
    requires op.base[level] + op.failed[level] <= m.links[level]
    ensures Ready(m, Splice(op, m, level, p, n))
    ensures SpliceOk(cmp, concurrent, m, Splice(op, m, level, p, n), level)
  {
  }

  /** Recording one level's splice leaves the other levels' alone. */
  lemma SplicesKept(cmp: Comparator, concurrent: bool, m: Memory, op: Op, op': Op, lo: nat, hi: nat)
    requires Ready(m, op) && Ready(m, op') && hi <= MAX_HEIGHT && op'.call.key == op.call.key
    requires Splices(cmp, concurrent, m, op, lo, hi)
    requires forall j {:trigger op'.prev[j]} :: lo <= j < hi ==>
               op'.prev[j] == op.prev[j] && op'.next[j] == op.next[j] && op'.seen[j] == op.seen[j]
               && op'.base[j] == op.base[j] && op'.failed[j] == op.failed[j]
    ensures Splices(cmp, concurrent, m, op', lo, hi)
  {
    forall j | lo <= j < hi ensures SpliceOk(cmp, concurrent, m, op', j) {
      assert op'.prev[j] == op.prev[j];
      assert SpliceOk(cmp, concurrent, m, op, j);
    }
  }

  /** Meeting a node with the same key: the put is a duplicate, and answers like one. */
  lemma DuplicateStep(cmp: Comparator, s: State, o: nat, level: nat, p: nat)
    requires MayStep(cmp, s, o)
    requires var op := s.ops[o];
             && op.call.Put? && Writing(op) && Effective(op) == None
             && Budgets(s.mem, op) && (op.node == 0 || Owns(s.mem, op, 0))
             && level < MAX_HEIGHT && p in s.mem.linked[level] && p in s.mem.heap && p != HEAD
             && cmp(s.mem.heap[p].key, op.call.key) == Equal
    ensures GoodStep(cmp, s, Finish(s, o, Duplicate(s.ops[o], s.mem.heap, p)), o)
  {
    hide TotalOrder, GoodStep, HeapOk, HeightOk, Contents;
    var op, m := s.ops[o], s.mem;
    var answer := Duplicate(op, m.heap, p);
    var op' := op.(pc := Respond(answer), at := |s.log|);
    assert Settled(m, op') by {
      BudgetsKept(m, op, op');
      assert op.node == 0 || Owns(m, op', 0);
    }
    DuplicateLegal(cmp, m, op, level, p);
    LocalFinish(cmp, s, o, answer);
  }

  lemma DuplicateLegal(cmp: Comparator, m: Memory, op: Op, level: nat, p: nat)
    requires TotalOrder(cmp) && MemoryOk(cmp, m) && op.call.Put? && (op.node == 0 || Owns(m, op, 0))
    requires level < MAX_HEIGHT && p in m.linked[level] && p in m.heap && p != HEAD
    requires cmp(m.heap[p].key, op.call.key) == Equal
    ensures LevelOk(cmp, m.heap, m.linked[0], 0)
    ensures var c := Contents(m.heap, m.linked[0]);
            op.call.key in c && Legal(cmp, c, op.call, Duplicate(op, m.heap, p)) && Effect(c, op.call) == c
    ensures op.node !in m.linked[0]
  {
    Downward(cmp, m, level, p);
    LevelZero(cmp, m);
  }

  lemma BudgetsKept(m: Memory, op: Op, op': Op)
    requires Budgets(m, op) && Ready(m, op') && op'.base == op.base && op'.failed == op.failed && op'.node == op.node
    ensures Budgets(m, op')
  {
    forall j | 0 <= j < MAX_HEIGHT ensures Budget(m, op', j) {
      assert op.failed[j] == op'.failed[j];
      assert Budget(m, op, j);
    }
  }

  lemma SearchStep(cmp: Comparator, s: State, o: nat)
    requires MayStep(cmp, s, o) && s.ops[o].pc.Search? && s.ops[o].call.Put?
    ensures GoodStep(cmp, s, StepSearch(cmp, s, o, s.ops[o].pc.level, s.ops[o].pc.before), o)
  {
    hide GoodStep, HeapOk, LevelsOk, HeightOk;
    var op, m, level, before := s.ops[o], s.mem, s.ops[o].pc.level, s.ops[o].pc.before;
    ProbeFinds(cmp, m, level, before, op.call.key);
    match Probe(cmp, m.heap, op.call.key, before, level)
    case Onward(n) =>
      BudgetsKept(m, op, op.(pc := Search(level, n)));
      SplicesKept(cmp, s.concurrent, m, op, op.(pc := Search(level, n)), level + 1, MAX_HEIGHT);
      LocalStep(cmp, s, o, op.(pc := Search(level, n)));
    case Found(p, n) =>
      if p == n {
        assert op.node !in m.linked[0] by { LevelZero(cmp, m); }
        DuplicateStep(cmp, s, o, level, p);
      } else {
        SearchFound(cmp, s, o, level, p, n);
      }
  }

  lemma SearchFound(cmp: Comparator, s: State, o: nat, level: nat, p: nat, n: nat)
    requires MayStep(cmp, s, o) && s.ops[o].pc.Search? && s.ops[o].call.Put? && s.ops[o].pc.level == level
    requires Standing(cmp, s.mem, level, p, s.ops[o].call.key) && p != 0 && Next(s.mem.heap, p, level) == n && p != n
    requires n != 0 ==> n in s.mem.linked[level] && n in s.mem.heap && AfterKey(cmp, s.mem.heap, n, s.ops[o].call.key)
    ensures var op, m := s.ops[o], s.mem;
            var op' := Splice(op, m, level, p, n).(base := Put21(op.base, level, At(m.links, level)));
            GoodStep(cmp, s, Now(s, o, op'.(pc := if level == 0 then AllocLoad else Search(level - 1, OrHead(p)))), o)
  {
    hide TotalOrder, GoodStep, HeapOk, HeightOk;
    var op, m := s.ops[o], s.mem;
    var op2 := Splice(op, m, level, p, n).(base := Put21(op.base, level, At(m.links, level)),
                                           pc := if level == 0 then AllocLoad else Search(level - 1, OrHead(p)));
    SearchFoundOk(cmp, s.concurrent, m, op, op2, level, p, n);
    LocalStep(cmp, s, o, op2);
  }

  lemma SearchFoundOk(cmp: Comparator, concurrent: bool, m: Memory, op: Op, op2: Op, level: nat, p: nat, n: nat)
    requires MemoryOk(cmp, m) && op.call.Put? && PutOk(cmp, concurrent, m, op) && op.pc.Search? && op.pc.level == level
    requires Standing(cmp, m, level, p, op.call.key) && p != 0 && Next(m.heap, p, level) == n && p != n
    requires n != 0 ==> n in m.linked[level] && n in m.heap && AfterKey(cmp, m.heap, n, op.call.key)
    requires op2 == Splice(op, m, level, p, n).(base := Put21(op.base, level, At(m.links, level)),
                                                pc := if level == 0 then AllocLoad else Search(level - 1, OrHead(p)))
    ensures PutOk(cmp, concurrent, m, op2)
  {
    hide HeapOk, HeightOk;
    var op1 := op.(base := Put21(op.base, level, At(m.links, level)));
    assert op.failed[level] == 0;
    SpliceRecorded(cmp, concurrent, m, op1, level, p, n);
    forall j | 0 <= j < MAX_HEIGHT ensures Budget(m, op2, j) {
      assert op.failed[j] == op2.failed[j];
      assert Budget(m, op, j);
      assert LevelOk(cmp, m.heap, m.linked[j], j);
    }
    SplicesKept(cmp, concurrent, m, op, op2, level + 1, MAX_HEIGHT);
    assert SpliceOk(cmp, concurrent, m, op2, level);
    if level > 0 {
      assert p in m.linked[level - 1];
      assert LevelOk(cmp, m.heap, m.linked[level - 1], level - 1);
    }
  }
}
