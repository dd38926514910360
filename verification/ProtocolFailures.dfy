/** Failed splice CASes counted on the run itself, and paid for by other calls' links since the writer's search. */
module ProtocolFailures {
  import opened Comparators
  import opened Levels
  import opened MapSpec
  import opened Protocol
  import opened ProtocolInvariant
  import opened ProtocolRuns
  import opened ProtocolTheorems
  import opened ProtocolProgress

  /** The action is a splice CAS of call `o` on level `j`, and it fails: the predecessor's link has changed. */
  predicate FailsSplice(s: State, a: Action, o: nat, j: nat) {
    && a.Go? && a.o == o && o in s.ops && s.concurrent && s.ops[o].pc == SwingPrev(j)
    && HasLevel(s.mem.heap, At(s.ops[o].prev, j), j)
    && Next(s.mem.heap, At(s.ops[o].prev, j), j) != At(s.ops[o].next, j)
  }

  ghost function Failures(cmp: Comparator, capacity: nat, concurrent: bool, acts: seq<Action>, o: nat, j: nat): nat {
    if acts == [] then 0
    else
      var front := acts[..|acts| - 1];
      Failures(cmp, capacity, concurrent, front, o, j)
      + if FailsSplice(Run(cmp, capacity, concurrent, front), acts[|acts| - 1], o, j) then 1 else 0
  }

  // -------------------- the counters are honest --------------------

  /** The call has not determined its splice on level `j` yet. */
  predicate BeforeSearch(s: State, o: nat, j: nat) {
    o !in s.ops || s.ops[o].pc.ReadHeight? || (s.ops[o].pc.Search? && j <= s.ops[o].pc.level)
  }

  /** The counter of a call on a level, 0 while it has none. */
  function FailedOn(s: State, o: nat, j: nat): nat {
    if o in s.ops then At(s.ops[o].failed, j) else 0
  }

  /** A step past the first descent keeps the counters but for a failed splice CAS. */
  ghost predicate CountersKept(s: State, s': State, o: nat)
    requires o in s.ops
  {
    && o in s'.ops && s'.ops[o].failed == s.ops[o].failed && s'.ops[o].base == s.ops[o].base
    && !s'.ops[o].pc.ReadHeight? && !s'.ops[o].pc.Search?
  }

  lemma EnterKeepsCounters(op: Op, concurrent: bool, level: nat)
    ensures var op' := EnterLevel(op, concurrent, level);
            op'.failed == op.failed && op'.base == op.base && !op'.pc.ReadHeight? && !op'.pc.Search?
  {
  }

  lemma ResearchCounters(cmp: Comparator, s: State, o: nat, level: nat, x: nat)
    requires o in s.ops && s.ops[o].call.Put?
    ensures CountersKept(s, StepResearch(cmp, s, o, level, x), o)
            && CountersKept(s, StepLateSearch(cmp, s, o, level, x), o)
    ensures CountersKept(s, StepAllocLoad(s, o), o)
  {
    match Probe(cmp, s.mem.heap, s.ops[o].call.key, x, level)
    case Found(p, q) => EnterKeepsCounters(Splice(s.ops[o], s.mem, level, p, q), s.concurrent, level);
    case _ =>
    hide EnterLevel, Probe;
  }

  lemma AllocCounters(s: State, o: nat, current: nat, spurious: bool)
    requires o in s.ops
    ensures s.ops[o].call.Put? ==> CountersKept(s, StepAllocCas(s, o, current), o)
    ensures CountersKept(s, StepRaise(s, o, current, spurious), o) && CountersKept(s, StepStoreHeight(s, o), o)
  {
    EnterKeepsCounters(s.ops[o].(node := OrHead(current)), s.concurrent, 0);
    EnterKeepsCounters(s.ops[o], s.concurrent, 0);
    hide EnterLevel;
  }

  lemma StoreCounters(s: State, o: nat, level: nat)
    requires o in s.ops
    ensures CountersKept(s, StepBackOwn(s, o), o) && CountersKept(s, StepBackNext(s, o), o)
    ensures CountersKept(s, StepStoreNext(s, o, level), o)
  {
  }

  lemma SwingCounters(s: State, o: nat, level: nat)
    requires o in s.ops && level < |s.ops[o].failed|
    requires HasLevel(s.mem.heap, At(s.ops[o].prev, level), level) && level < |s.mem.linked| && level < |s.mem.links|
    ensures var s' := StepSwingPrev(s, o, level);
            && o in s'.ops && s'.ops[o].base == s.ops[o].base && !s'.ops[o].pc.ReadHeight? && !s'.ops[o].pc.Search?
            && s'.ops[o].failed == if s.concurrent
              && Next(s.mem.heap, At(s.ops[o].prev, level), level) != At(s.ops[o].next, level)
                                   then s.ops[o].failed[level := s.ops[o].failed[level] + 1] else s.ops[o].failed
  {
    EnterKeepsCounters(s.ops[o], s.concurrent, level + 1);
    hide EnterLevel;
  }

  lemma WalkCounters(cmp: Comparator, s: State, o: nat, level: nat, x: nat)
    requires o in s.ops
    ensures CountersKept(s, StepWalk(cmp, s, o, level, x), o) && CountersKept(s, StepStepOver(s, o, x), o)
  {
  }

  // -------------------- what has been paid since a moment before the search --------------------

  predicate AnsweredWithoutNode(op: Op) {
    op.node == 0 && (op.pc.Respond? || op.pc.Done?)
  }

  /** `failures` splice CASes of call `o` on level `j` failed, and the search that determined its splice came after the
      level had `since` links. */
  ghost predicate Paid(s: State, o: nat, j: nat, since: nat, failures: nat) {
    && |s.mem.links| == MAX_HEIGHT && j < MAX_HEIGHT && since <= s.mem.links[j] && failures == FailedOn(s, o, j)
    && (o in s.ops && s.ops[o].call.Put? ==>
          && (s.ops[o].node == 0 ==> failures == 0)
          && (BeforeSearch(s, o, j) || since <= At(s.ops[o].base, j) || AnsweredWithoutNode(s.ops[o])))
  }

  lemma ReadHeightPays(s: State, o: nat, j: nat, since: nat)
    requires o in s.ops && s.ops[o].call.Put? && s.ops[o].node == 0 && Paid(s, o, j, since, 0)
    ensures Paid(StepReadHeight(s, o), o, j, since, 0)
  {
  }

  lemma SearchPays(cmp: Comparator, s: State, o: nat, level: nat, x: nat, j: nat, since: nat)
    requires o in s.ops && s.ops[o].call.Put? && s.ops[o].node == 0 && s.ops[o].pc == Search(level, x)
    requires Paid(s, o, j, since, 0) && |s.ops[o].base| == MAX_HEIGHT + 1 && level < MAX_HEIGHT
    requires !StepSearch(cmp, s, o, level, x).ops[o].pc.Fault?
    ensures Paid(StepSearch(cmp, s, o, level, x), o, j, since, 0)
  {
    hide Probe;
  }

  /** What the invariant says of a put before it has allocated, and when it swings a link. */
  lemma PutKnows(cmp: Comparator, s: State, o: nat)
    requires Inv(cmp, s) && o in s.ops && s.ops[o].call.Put?
    ensures s.ops[o].pc.ReadHeight? ==> s.ops[o].node == 0
    ensures s.ops[o].pc.Search? ==>
              s.ops[o].node == 0 && |s.ops[o].base| == MAX_HEIGHT + 1 && s.ops[o].pc.level < MAX_HEIGHT
    ensures s.ops[o].pc.SwingPrev? ==>
              var level := s.ops[o].pc.level;
              && s.ops[o].node != 0 && level < |s.ops[o].failed| && level < |s.mem.linked| && level < |s.mem.links|
              && HasLevel(s.mem.heap, At(s.ops[o].prev, level), level)
  {
    hide LogOk, HeapOk, LevelsOk, HeightOk;
    assert OpOk(cmp, s.concurrent, s.mem, s.ops[o]);
    if s.ops[o].pc.SwingPrev? {
      assert SpliceOk(cmp, s.concurrent, s.mem, s.ops[o], s.ops[o].pc.level);
    }
  }

  /** Past the first descent and outside the splice CAS. */
  lemma OtherCounters(cmp: Comparator, s: State, o: nat, spurious: bool)
    requires o in s.ops && s.ops[o].call.Put?
    requires !s.ops[o].pc.ReadHeight? && !s.ops[o].pc.Search? && !s.ops[o].pc.SwingPrev?
    ensures CountersKept(s, Advance(cmp, s, o, spurious), o)
    ensures AnsweredWithoutNode(s.ops[o]) ==> AnsweredWithoutNode(Advance(cmp, s, o, spurious).ops[o])
  {
    hide StepReadHeight, StepSearch, StepAllocLoad, StepAllocCas, StepRaise, StepStoreHeight, StepBackOwn, StepBackNext;
    hide StepStoreNext, StepSwingPrev, StepResearch, StepLateSearch, StepWalk, StepStepOver;
    match s.ops[o].pc
    case AllocLoad => ResearchCounters(cmp, s, o, 0, 0);
    case AllocCas(current) => AllocCounters(s, o, current, spurious);
    case Raise(current) => AllocCounters(s, o, current, spurious);
    case StoreHeight => AllocCounters(s, o, 0, spurious);
    case BackOwn => StoreCounters(s, o, 0);
    case BackNext => StoreCounters(s, o, 0);
    case StoreNext(level) => StoreCounters(s, o, level);
    case Research(level, x) => ResearchCounters(cmp, s, o, level, x);
    case LateSearch(level, x) => ResearchCounters(cmp, s, o, level, x);
    case Walk(level, x) => WalkCounters(cmp, s, o, level, x);
    case StepOver(x) => WalkCounters(cmp, s, o, 0, x);
    case _ =>
  }

  lemma LinksStay(cmp: Comparator, s: State, a: Action, j: nat)
    requires Later(s, Do(cmp, s, a)) && j < MAX_HEIGHT
    ensures |s.mem.links| == |Do(cmp, s, a).mem.links| == MAX_HEIGHT && s.mem.links[j] <= Do(cmp, s, a).mem.links[j]
  {
    hide Do;
  }

  lemma NodeNeverReset(cmp: Comparator, s: State, o: nat, spurious: bool)
    requires TotalOrder(cmp) && Inv(cmp, s) && o in s.ops
    ensures var s' := Advance(cmp, s, o, spurious);
            && o in s'.ops && s'.ops[o].call == s.ops[o].call && (s'.ops[o].node == 0 ==> s.ops[o].node == 0)
  {
    hide Advance, Inv, TotalOrder;
    KeysStep(cmp, s, o, spurious);
    hide KeepsNodes;
    if s.ops[o].pc.AllocCas? {
      InvMayStep(cmp, s, o);
      AllocatorIsNew(cmp, s, o);
    }
  }

  lemma SwingPays(s: State, s': State, o: nat, level: nat, j: nat, since: nat, failures: nat, spurious: bool)
    requires o in s.ops && s.ops[o].call.Put? && s.ops[o].node != 0 && s.ops[o].pc == SwingPrev(level)
    requires level < |s.ops[o].failed| && level < |s.mem.linked| && level < |s.mem.links|
    requires HasLevel(s.mem.heap, At(s.ops[o].prev, level), level) && Paid(s, o, j, since, failures)
    requires s' == StepSwingPrev(s, o, level) && |s'.mem.links| == MAX_HEIGHT && s.mem.links[j] <= s'.mem.links[j]
    requires o in s'.ops && (s'.ops[o].node == 0 ==> s.ops[o].node == 0)
    ensures Paid(s', o, j, since, failures + if FailsSplice(s, Go(o, spurious), o, j) then 1 else 0)
  {
    hide HasLevel, StepSwingPrev;
    SwingCounters(s, o, level);
  }

  lemma KeptPays(s: State, s': State, o: nat, j: nat, since: nat, failures: nat)
    requires o in s.ops && s.ops[o].call.Put? && !s.ops[o].pc.ReadHeight? && !s.ops[o].pc.Search?
    requires Paid(s, o, j, since, failures) && CountersKept(s, s', o)
    requires AnsweredWithoutNode(s.ops[o]) ==> AnsweredWithoutNode(s'.ops[o])
    requires |s'.mem.links| == MAX_HEIGHT && s.mem.links[j] <= s'.mem.links[j]
    requires s'.ops[o].node == 0 ==> s.ops[o].node == 0
    ensures Paid(s', o, j, since, failures)
  {
  }

  lemma OwnStepPays(cmp: Comparator, s: State, o: nat, spurious: bool, j: nat, since: nat, failures: nat)
    requires TotalOrder(cmp) && Inv(cmp, s) && o in s.ops && s.ops[o].call.Put? && Paid(s, o, j, since, failures)
    requires Later(s, Advance(cmp, s, o, spurious)) && NoFault(Advance(cmp, s, o, spurious), o)
    ensures Paid(Advance(cmp, s, o, spurious), o, j, since,
                 failures + if FailsSplice(s, Go(o, spurious), o, j) then 1 else 0)
  {
    hide Inv, TotalOrder, Later, StepReadHeight, StepSearch, StepSwingPrev, Paid, HasLevel, CountersKept,
      AnsweredWithoutNode;
    PutKnows(cmp, s, o);
    NodeNeverReset(cmp, s, o, spurious);
    PaidLevel(s, o, j, since, failures);
    LinksStay(cmp, s, Go(o, spurious), j);
    match s.ops[o].pc
    case ReadHeight => ReadHeightPays(s, o, j, since);
    case Search(level, x) => SearchPays(cmp, s, o, level, x, j, since);
    case SwingPrev(level) => SwingPays(s, Advance(cmp, s, o, spurious), o, level, j, since, failures, spurious);
    case _ =>
      hide Advance;
      OtherCounters(cmp, s, o, spurious);
      KeptPays(s, Advance(cmp, s, o, spurious), o, j, since, failures);
  }

  predicate NoFault(s: State, o: nat) {
    o in s.ops && !s.ops[o].pc.Fault?
  }

  lemma PaidLevel(s: State, o: nat, j: nat, since: nat, failures: nat)
    requires Paid(s, o, j, since, failures)
    ensures j < MAX_HEIGHT
    ensures o in s.ops && s.ops[o].call.Put? && s.ops[o].node == 0 ==> failures == 0
  {
  }

  // -------------------- over runs --------------------

  lemma OtherStepPays(s: State, s': State, o: nat, j: nat, since: nat, failures: nat)
    requires Paid(s, o, j, since, failures)
    requires (o in s.ops <==> o in s'.ops) && (o in s.ops ==> s'.ops[o] == s.ops[o])
    requires |s'.mem.links| == MAX_HEIGHT && s.mem.links[j] <= s'.mem.links[j]
    ensures Paid(s', o, j, since, failures)
  {
  }

  lemma StartPays(s: State, s': State, o: nat, j: nat, since: nat, failures: nat, call: Call, pick: nat)
    requires Paid(s, o, j, since, failures) && o !in s.ops && s'.mem == s.mem
    requires o in s'.ops && s'.ops[o] == Op(call, pick, ReadHeight, 0, [], [], 0, [], [], [], 0)
    ensures Paid(s', o, j, since, failures)
  {
  }

  lemma SeekKeepsCounters(cmp: Comparator, s: State, o: nat, spurious: bool)
    requires Inv(cmp, s) && o in s.ops && !s.ops[o].call.Put?
    ensures o in Advance(cmp, s, o, spurious).ops && Advance(cmp, s, o, spurious).ops[o].failed == s.ops[o].failed
    ensures !s.ops[o].pc.SwingPrev?
  {
    hide MemoryOk, LogOk;
    assert OpOk(cmp, s.concurrent, s.mem, s.ops[o]);
    hide Inv, StepWalk, StepStepOver;
    match s.ops[o].pc
    case Walk(level, x) => WalkCounters(cmp, s, o, level, x);
    case StepOver(x) => WalkCounters(cmp, s, o, 0, x);
    case _ =>
  }

  lemma SeekPays(s: State, s': State, o: nat, j: nat, since: nat, failures: nat)
    requires Paid(s, o, j, since, failures) && o in s.ops && o in s'.ops && !s.ops[o].call.Put?
    requires s'.ops[o].call == s.ops[o].call && s'.ops[o].failed == s.ops[o].failed
    requires |s'.mem.links| == MAX_HEIGHT && s.mem.links[j] <= s'.mem.links[j]
    ensures Paid(s', o, j, since, failures)
  {
  }

  lemma OtherGoPays(cmp: Comparator, s: State, p: nat, spurious: bool, o: nat, j: nat, since: nat, failures: nat)
    requires TotalOrder(cmp) && Inv(cmp, s) && p in s.ops && p != o && Paid(s, o, j, since, failures)
    requires Later(s, Advance(cmp, s, p, spurious))
    ensures Paid(Advance(cmp, s, p, spurious), o, j, since, failures)
  {
    PaidLevel(s, o, j, since, failures);
    LinksStay(cmp, s, Go(p, spurious), j);
    hide Inv, TotalOrder, Later, Paid, Advance, KeepsNodes, AddsNode;
    InvMayStep(cmp, s, p);
    OthersSame(cmp, s, p, spurious);
    NoNewCalls(cmp, s, p, spurious);
    OtherStepPays(s, Advance(cmp, s, p, spurious), o, j, since, failures);
  }

  lemma OwnGoPays(cmp: Comparator, s: State, o: nat, spurious: bool, j: nat, since: nat, failures: nat)
    requires TotalOrder(cmp) && Inv(cmp, s) && Inv(cmp, Advance(cmp, s, o, spurious)) && o in s.ops
    requires Later(s, Advance(cmp, s, o, spurious)) && Paid(s, o, j, since, failures)
    ensures Paid(Advance(cmp, s, o, spurious), o, j, since,
                 failures + if FailsSplice(s, Go(o, spurious), o, j) then 1 else 0)
  {
    PaidLevel(s, o, j, since, failures);
    LinksStay(cmp, s, Go(o, spurious), j);
    hide Inv, TotalOrder, Later, Paid, Advance;
    var s' := Advance(cmp, s, o, spurious);
    NodeNeverReset(cmp, s, o, spurious);
    if s.ops[o].call.Put? {
      InvNoFault(cmp, s', o);
      OwnStepPays(cmp, s, o, spurious, j, since, failures);
    } else {
      SeekKeepsCounters(cmp, s, o, spurious);
      SeekPays(s, s', o, j, since, failures);
    }
  }

  lemma StartStepPays(cmp: Comparator, s: State, a: Action, o: nat, j: nat, since: nat, failures: nat)
    requires a.Start? && Paid(s, o, j, since, failures)
    ensures Paid(Do(cmp, s, a), o, j, since, failures)
  {
    PaidLevel(s, o, j, since, failures);
    var s' := Do(cmp, s, a);
    if o !in s.ops && o in s'.ops {
      StartPays(s, s', o, j, since, failures, a.call, a.pick);
    } else {
      OtherStepPays(s, s', o, j, since, failures);
    }
  }

  lemma StepPays(cmp: Comparator, s: State, a: Action, o: nat, j: nat, since: nat, failures: nat)
    requires TotalOrder(cmp) && Inv(cmp, s) && Inv(cmp, Do(cmp, s, a)) && Later(s, Do(cmp, s, a))
    requires Paid(s, o, j, since, failures)
    ensures Paid(Do(cmp, s, a), o, j, since, failures + if FailsSplice(s, a, o, j) then 1 else 0)
  {
    hide Inv, TotalOrder, Later, Paid, Advance;
    match a
    case Start(_, _, _) => StartStepPays(cmp, s, a, o, j, since, failures);
    case Go(p, spurious) =>
      if p !in s.ops {
        NobodySteps(cmp, s, p, spurious);
      } else if p != o {
        OtherGoPays(cmp, s, p, spurious, o, j, since, failures);
      } else {
        OwnGoPays(cmp, s, o, spurious, j, since, failures);
      }
  }

  lemma InvNoFault(cmp: Comparator, s: State, o: nat)
    requires Inv(cmp, s) && o in s.ops
    ensures NoFault(s, o)
  {
    hide MemoryOk, LogOk;
    assert OpOk(cmp, s.concurrent, s.mem, s.ops[o]);
  }

  lemma {:induction false} PaidFromStart(cmp: Comparator, capacity: nat, concurrent: bool, acts: seq<Action>, o: nat,
      j: nat)
    requires TotalOrder(cmp) && capacity >= 192 && j < MAX_HEIGHT
    ensures Paid(Run(cmp, capacity, concurrent, acts), o, j, 0, Failures(cmp, capacity, concurrent, acts, o, j))
  {
    if acts == [] {
      FreshPays(capacity, concurrent, o, j);
    } else {
      var front, a := acts[..|acts| - 1], acts[|acts| - 1];
      PaidFromStart(cmp, capacity, concurrent, front, o, j);
      RunInv(cmp, capacity, concurrent, front);
      RunInv(cmp, capacity, concurrent, acts);
      LastLater(cmp, capacity, concurrent, front, a);
      hide Paid, Inv, Later, TotalOrder, Do;
      StepPays(cmp, Run(cmp, capacity, concurrent, front), a, o, j, 0,
        Failures(cmp, capacity, concurrent, front, o, j));
    }
  }

  lemma FreshPays(capacity: nat, concurrent: bool, o: nat, j: nat)
    requires j < MAX_HEIGHT
    ensures Paid(Fresh(capacity, concurrent), o, j, 0, 0)
  {
  }

  lemma {:induction false} PaidSince(cmp: Comparator, capacity: nat, concurrent: bool, acts: seq<Action>,
      more: seq<Action>,
      o: nat, j: nat)
    requires TotalOrder(cmp) && capacity >= 192 && j < MAX_HEIGHT
    requires var s := Run(cmp, capacity, concurrent, acts); |s.mem.links| == MAX_HEIGHT && BeforeSearch(s, o, j)
    ensures Paid(Run(cmp, capacity, concurrent, acts + more), o, j, Run(cmp, capacity, concurrent, acts).mem.links[j],
                 Failures(cmp, capacity, concurrent, acts + more, o, j))
    decreases |more|
  {
    hide Run, Inv, Later, TotalOrder, Do, Failures;
    if more == [] {
      PaidFromStart(cmp, capacity, concurrent, acts, o, j);
      assert acts + more == acts;
    } else {
      hide Paid;
      var front, a := more[..|more| - 1], more[|more| - 1];
      PaidSince(cmp, capacity, concurrent, acts, front, o, j);
      RunInv(cmp, capacity, concurrent, acts + front);
      RunInv(cmp, capacity, concurrent, acts + more);
      RunSnoc(cmp, capacity, concurrent, acts, more);
      LastLater(cmp, capacity, concurrent, acts + front, a);
      FailuresSnoc(cmp, capacity, concurrent, acts + front, a, o, j);
      assert acts + more == acts + front + [a];
      StepPays(cmp, Run(cmp, capacity, concurrent, acts + front), a, o, j,
               Run(cmp, capacity, concurrent, acts).mem.links[j],
                 Failures(cmp, capacity, concurrent, acts + front, o, j));
    }
  }

  lemma FailuresSnoc(cmp: Comparator, capacity: nat, concurrent: bool, acts: seq<Action>, a: Action, o: nat, j: nat)
    ensures Failures(cmp, capacity, concurrent, acts + [a], o, j)
         == Failures(cmp, capacity, concurrent, acts, o, j)
            + if FailsSplice(Run(cmp, capacity, concurrent, acts), a, o, j) then 1 else 0
  {
    hide Run, FailsSplice;
    assert (acts + [a])[..|acts|] == acts;
  }

  lemma PaidMeans(cmp: Comparator, s: State, o: nat, j: nat, since: nat, failures: nat)
    requires Inv(cmp, s) && o in s.ops && s.ops[o].call.Put? && Paid(s, o, j, since, failures)
    ensures |s.mem.linked| == MAX_HEIGHT
    ensures since + 1 + failures + (if s.ops[o].node in s.mem.linked[j] then 1 else 0) <= |s.mem.linked[j]|
  {
    NodesAreCounted(cmp, s, j);
    if s.ops[o].node != 0 {
      OwnersBudget(cmp, s, o, j);
    }
    hide Inv;
  }

  lemma NodesAreCounted(cmp: Comparator, s: State, j: nat)
    requires Inv(cmp, s) && j < MAX_HEIGHT
    ensures |s.mem.linked| == |s.mem.links| == MAX_HEIGHT && s.mem.links[j] + 1 == |s.mem.linked[j]|
    ensures 0 !in s.mem.linked[j]
  {
    hide CallsOk, LogOk, HeapOk;
    assert s.mem.links[j] == s.mem.links[j];
    assert LevelOk(cmp, s.mem.heap, s.mem.linked[j], j);
  }

  lemma OwnersBudget(cmp: Comparator, s: State, o: nat, j: nat)
    requires Inv(cmp, s) && o in s.ops && s.ops[o].call.Put? && s.ops[o].node != 0 && j < MAX_HEIGHT
    ensures !s.ops[o].pc.ReadHeight? && !s.ops[o].pc.Search? && |s.mem.linked| == |s.mem.links| == MAX_HEIGHT
    ensures At(s.ops[o].base, j) + At(s.ops[o].failed, j) + (if s.ops[o].node in s.mem.linked[j] then 1 else 0)
            <= s.mem.links[j]
  {
    hide LogOk, HeapOk, LevelsOk, HeightOk, Splices, Owns;
    assert OpOk(cmp, s.concurrent, s.mem, s.ops[o]);
    assert Budget(s.mem, s.ops[o], j) by {
      assert s.ops[o].failed[j] == s.ops[o].failed[j];
    }
  }

  /** Progress without bookkeeping: take any moment at which a put has not yet determined its splice on a level. However
      the run goes on, the splice CASes it fails there, plus its own link, are at most as many as the nodes the level
      has gained since. */
  lemma FailuresArePaidByLinks(cmp: Comparator, capacity: nat, concurrent: bool, acts: seq<Action>, more: seq<Action>,
      o: nat, j: nat)
    requires TotalOrder(cmp) && capacity >= 192 && j < MAX_HEIGHT
    requires BeforeSearch(Run(cmp, capacity, concurrent, acts), o, j)
    requires var s' := Run(cmp, capacity, concurrent, acts + more); o in s'.ops && s'.ops[o].call.Put?
    ensures var s, s' := Run(cmp, capacity, concurrent, acts), Run(cmp, capacity, concurrent, acts + more);
            && |s.mem.linked| == |s'.mem.linked| == MAX_HEIGHT
            && |s.mem.linked[j]| + Failures(cmp, capacity, concurrent, acts + more, o, j)
               + (if s'.ops[o].node in s'.mem.linked[j] then 1 else 0) <= |s'.mem.linked[j]|
  {
    RunInv(cmp, capacity, concurrent, acts);
    RunInv(cmp, capacity, concurrent, acts + more);
    hide Run, Inv, TotalOrder, Failures, Paid, BeforeSearch;
    NodesAreCounted(cmp, Run(cmp, capacity, concurrent, acts), j);
    PaidSince(cmp, capacity, concurrent, acts, more, o, j);
    PaidMeans(cmp, Run(cmp, capacity, concurrent, acts + more), o, j, Run(cmp, capacity, concurrent, acts).mem.links[j],
              Failures(cmp, capacity, concurrent, acts + more, o, j));
  }
}
