/** No call goes on forever: whatever the schedule, the steps of each call are bounded by the number of calls. */
module ProtocolProgress {
  import opened Comparators
  import opened Levels
  import opened Sums
  import opened Protocol
  import opened ProtocolInvariant
  import opened ProtocolInterference
  import opened ProtocolEffects
  import opened ProtocolSteps
  import opened ProtocolRuns
  import opened ProtocolRanks

  // -------------------- how many nodes there are --------------------

  /** Calls that have allocated. */
  ghost function Owners(s: State): set<nat> {
    set o | o in s.ops && s.ops[o].node != 0
  }

  /** The call keeps its arguments and its draw, and the list height stays or is raised to that draw. */
  ghost predicate SameDraw(s: State, s': State, o: nat)
    requires o in s.ops
  {
    && o in s'.ops && s'.ops[o].call == s.ops[o].call && s'.ops[o].pick == s.ops[o].pick
    && (s'.mem.height == s.mem.height
        || (s'.mem.height == s.ops[o].pick && (s.ops[o].pc.Raise? || s.ops[o].pc.StoreHeight?)))
  }

  ghost predicate KeepsNodes(s: State, s': State, o: nat)
    requires o in s.ops
  {
    && s'.ops.Keys == s.ops.Keys && s'.ops[o].node == s.ops[o].node
    && s'.mem.heap.Keys == s.mem.heap.Keys && s'.mem.top == s.mem.top && s'.mem.capacity == s.mem.capacity
    && SameDraw(s, s', o)
  }

  ghost predicate AddsNode(s: State, s': State, o: nat)
    requires o in s.ops
  {
    && s.ops[o].pc.AllocCas? && s'.ops.Keys == s.ops.Keys && s'.ops[o].node == OrHead(s.mem.top)
    && s'.mem.heap.Keys == s.mem.heap.Keys + {OrHead(s.mem.top)}
    && s.mem.top <= s'.mem.top && s'.mem.capacity == s.mem.capacity && SameDraw(s, s', o)
  }

  lemma EnterKeepsNode(op: Op, concurrent: bool, level: nat)
    ensures var op' := EnterLevel(op, concurrent, level);
            op'.node == op.node && op'.call == op.call && op'.pick == op.pick
  {
  }

  lemma AllocNodes(s: State, o: nat, current: nat)
    requires o in s.ops && s.ops[o].call.Put? && s.ops[o].pc == AllocCas(current)
    ensures KeepsNodes(s, StepAllocCas(s, o, current), o) || AddsNode(s, StepAllocCas(s, o, current), o)
  {
    EnterKeepsNode(s.ops[o].(node := OrHead(current)), s.concurrent, 0);
    hide EnterLevel;
  }

  lemma RaiseNodes(s: State, o: nat, current: nat, spurious: bool)
    requires o in s.ops
    ensures s.ops[o].pc.Raise? ==> KeepsNodes(s, StepRaise(s, o, current, spurious), o)
    ensures s.ops[o].pc.StoreHeight? ==> KeepsNodes(s, StepStoreHeight(s, o), o)
  {
    EnterKeepsNode(s.ops[o], s.concurrent, 0);
    hide EnterLevel;
  }

  lemma BackNodes(s: State, o: nat)
    requires o in s.ops
    ensures KeepsNodes(s, StepBackOwn(s, o), o) && KeepsNodes(s, StepBackNext(s, o), o)
  {
  }

  lemma LinkNodes(s: State, o: nat, level: nat)
    requires o in s.ops
    ensures KeepsNodes(s, StepStoreNext(s, o, level), o) && KeepsNodes(s, StepSwingPrev(s, o, level), o)
  {
    EnterKeepsNode(s.ops[o], s.concurrent, level + 1);
    hide EnterLevel;
  }

  lemma SearchNodes(cmp: Comparator, s: State, o: nat, level: nat, x: nat)
    requires o in s.ops && s.ops[o].call.Put?
    ensures KeepsNodes(s, StepSearch(cmp, s, o, level, x), o) && KeepsNodes(s, StepLateSearch(cmp, s, o, level, x), o)
    ensures KeepsNodes(s, StepResearch(cmp, s, o, level, x), o) && KeepsNodes(s, StepAllocLoad(s, o), o)
  {
    match Probe(cmp, s.mem.heap, s.ops[o].call.key, x, level)
    case Found(p, q) => EnterKeepsNode(Splice(s.ops[o], s.mem, level, p, q), s.concurrent, level);
    case _ =>
    hide EnterLevel, Probe;
  }

  lemma SeekNodes(s: State, o: nat, x: nat)
    requires o in s.ops
    ensures KeepsNodes(s, StepReadHeight(s, o), o) && KeepsNodes(s, StepStepOver(s, o, x), o)
  {
  }

  lemma WalkNodes(cmp: Comparator, s: State, o: nat, level: nat, x: nat)
    requires o in s.ops
    ensures KeepsNodes(s, StepWalk(cmp, s, o, level, x), o)
  {
  }

  lemma GotoNodes(s: State, o: nat)
    requires o in s.ops
    ensures KeepsNodes(s, s, o) && forall pc {:trigger Goto(s, o, pc)} :: KeepsNodes(s, Goto(s, o, pc), o)
  {
  }

  /** A step allocates one node for its call, or none. */
  lemma KeysStep(cmp: Comparator, s: State, o: nat, spurious: bool)
    requires o in s.ops
    ensures KeepsNodes(s, Advance(cmp, s, o, spurious), o) || AddsNode(s, Advance(cmp, s, o, spurious), o)
  {
    hide StepReadHeight, StepSearch, StepAllocLoad, StepAllocCas, StepRaise, StepStoreHeight, StepBackOwn, StepBackNext;
    hide StepStoreNext, StepSwingPrev, StepResearch, StepLateSearch, StepWalk, StepStepOver, KeepsNodes, AddsNode, Goto;
    GotoNodes(s, o);
    SeekNodes(s, o, 0);
    match s.ops[o].pc
    case Search(level, x) => if s.ops[o].call.Put? { SearchNodes(cmp, s, o, level, x); }
    case Research(level, x) => if s.ops[o].call.Put? { SearchNodes(cmp, s, o, level, x); }
    case LateSearch(level, x) => if s.ops[o].call.Put? { SearchNodes(cmp, s, o, level, x); }
    case AllocLoad => if s.ops[o].call.Put? { SearchNodes(cmp, s, o, 0, 0); }
    case AllocCas(current) => if s.ops[o].call.Put? { AllocNodes(s, o, current); }
    case Raise(current) => RaiseNodes(s, o, current, spurious);
    case StoreHeight => RaiseNodes(s, o, 0, spurious);
    case BackOwn => BackNodes(s, o);
    case BackNext => BackNodes(s, o);
    case StoreNext(level) => LinkNodes(s, o, level);
    case SwingPrev(level) => LinkNodes(s, o, level);
    case Walk(level, x) => WalkNodes(cmp, s, o, level, x);
    case StepOver(x) => SeekNodes(s, o, x);
    case _ =>
  }

  lemma NobodySteps(cmp: Comparator, s: State, p: nat, spurious: bool)
    requires p !in s.ops
    ensures Advance(cmp, s, p, spurious) == s
  {
  }

  lemma NoNewCalls(cmp: Comparator, s: State, p: nat, spurious: bool)
    requires p in s.ops
    ensures Advance(cmp, s, p, spurious).ops.Keys == s.ops.Keys
  {
    hide Advance;
    KeysStep(cmp, s, p, spurious);
  }

  lemma AllocatorIsNew(cmp: Comparator, s: State, o: nat)
    requires MayStep(cmp, s, o) && s.ops[o].pc.AllocCas?
    ensures s.ops[o].node == 0 && OrHead(s.mem.top) !in s.mem.heap
  {
    TopIsFresh(s.mem);
    hide TotalOrder, LevelsOk, HeightOk;
    assert HEAD in s.mem.heap;
  }

  lemma OwnersCount(s: State, s': State, o: nat)
    requires o in s.ops && o in s'.ops && forall p :: p in s.ops && p != o ==> p in s'.ops && s'.ops[p] == s.ops[p]
    requires KeepsNodes(s, s', o) || (AddsNode(s, s', o) && s.ops[o].node == 0 && OrHead(s.mem.top) !in s.mem.heap)
    ensures |s.mem.heap| <= |s'.mem.heap| && |s'.mem.heap| + |Owners(s)| == |s.mem.heap| + |Owners(s')|
    ensures s'.mem.top != s.mem.top ==> |s.mem.heap| < |s'.mem.heap|
  {
    assert |s.mem.heap.Keys| == |s.mem.heap| && |s'.mem.heap.Keys| == |s'.mem.heap|;
    if KeepsNodes(s, s', o) {
      assert Owners(s') == Owners(s);
    } else {
      assert Owners(s') == Owners(s) + {o};
    }
  }

  lemma HeapStep(cmp: Comparator, s: State, o: nat, spurious: bool)
    requires o in s.ops && MayStep(cmp, s, o)
    requires forall p :: p in s.ops && p != o ==>
             p in Advance(cmp, s, o, spurious).ops && Advance(cmp, s, o, spurious).ops[p] == s.ops[p]
    ensures var s' := Advance(cmp, s, o, spurious);
            && |s.mem.heap| <= |s'.mem.heap| && |s'.mem.heap| + |Owners(s)| == |s.mem.heap| + |Owners(s')|
            && (s'.mem.top != s.mem.top ==> |s.mem.heap| < |s'.mem.heap|)
  {
    hide MayStep, Advance, Owners;
    KeysStep(cmp, s, o, spurious);
    if s.ops[o].pc.AllocCas? {
      AllocatorIsNew(cmp, s, o);
    }
    OwnersCount(s, Advance(cmp, s, o, spurious), o);
  }

  // -------------------- runs --------------------

  lemma HeapCount(cmp: Comparator, capacity: nat, concurrent: bool, acts: seq<Action>)
    requires TotalOrder(cmp) && capacity >= 192
    ensures var s := Run(cmp, capacity, concurrent, acts); |s.mem.heap| <= |s.ops| + 1
  {
    OwnersRun(cmp, capacity, concurrent, acts);
    hide Run, TotalOrder;
    var s := Run(cmp, capacity, concurrent, acts);
    SubsetIsSmaller(Owners(s), s.ops.Keys);
    assert |s.ops.Keys| == |s.ops|;
  }

  lemma {:induction false} OwnersRun(cmp: Comparator, capacity: nat, concurrent: bool, acts: seq<Action>)
    requires TotalOrder(cmp) && capacity >= 192
    ensures var s := Run(cmp, capacity, concurrent, acts); |s.mem.heap| == |Owners(s)| + 1
  {
    if acts == [] {
      assert Owners(Fresh(capacity, concurrent)) == {};
    } else {
      var front := acts[..|acts| - 1];
      OwnersRun(cmp, capacity, concurrent, front);
      RunInv(cmp, capacity, concurrent, front);
      hide TotalOrder, Inv, Owners;
      OwnersStep(cmp, Run(cmp, capacity, concurrent, front), acts[|acts| - 1]);
    }
  }

  lemma OwnersStep(cmp: Comparator, s: State, a: Action)
    requires TotalOrder(cmp) && Inv(cmp, s)
    ensures |Do(cmp, s, a).mem.heap| + |Owners(s)| == |s.mem.heap| + |Owners(Do(cmp, s, a))|
    ensures forall p {:trigger p in s.ops} :: p in s.ops ==> p in Do(cmp, s, a).ops
  {
    hide TotalOrder, Inv;
    match a
    case Start(o, _, _) => assert Owners(Do(cmp, s, a)) == Owners(s);
    case Go(o, spurious) =>
      if o in s.ops {
        hide Owners, Advance;
        InvMayStep(cmp, s, o);
        OthersSame(cmp, s, o, spurious);
        HeapStep(cmp, s, o, spurious);
      }
  }

  lemma OthersSame(cmp: Comparator, s: State, o: nat, spurious: bool)
    requires MayStep(cmp, s, o) && o in s.ops
    ensures o in Advance(cmp, s, o, spurious).ops
    ensures forall p {:trigger p in s.ops} :: p in s.ops && p != o ==>
              p in Advance(cmp, s, o, spurious).ops && Advance(cmp, s, o, spurious).ops[p] == s.ops[p]
  {
    hide MayStep, Advance, GoodStep;
    AnyStep(cmp, s, o, spurious);
    if Advance(cmp, s, o, spurious) != s {
      StepFacts(cmp, s, Advance(cmp, s, o, spurious), o);
    }
  }

  lemma StepEvolves(cmp: Comparator, s: State, s': State, o: nat)
    requires GoodStep(cmp, s, s', o)
    ensures o in s'.ops && Evolves(s.mem, s'.mem, s'.ops[o].node)
  {
    hide MemoryOk, Evolves, OpOk, Silent, Commits;
  }

  lemma LevelInRange(cmp: Comparator, concurrent: bool, m: Memory, op: Op)
    requires OpOk(cmp, concurrent, m, op)
    ensures op.pc.Search? || op.pc.Research? || op.pc.Walk? ==> op.pc.level < MAX_HEIGHT
  {
    hide Splices, Owns, Budget;
  }

  /** A step of one call does not raise the rank of another. */
  lemma OtherRank(cmp: Comparator, n: nat, s: State, o: nat, spurious: bool, o2: nat)
    requires MayStep(cmp, s, o) && o in s.ops && o2 in s.ops && o2 != o && OpOk(cmp, s.concurrent, s.mem, s.ops[o2])
    requires |Advance(cmp, s, o, spurious).mem.heap| <= n
    ensures var s' := Advance(cmp, s, o, spurious);
            o2 in s'.ops && s'.ops[o2] == s.ops[o2]
              && Rank(cmp, n, s'.mem, s'.ops[o2]) <= Rank(cmp, n, s.mem, s.ops[o2])
  {
    hide MayStep, Advance, GoodStep, OpOk, Rank, Evolves;
    OthersSame(cmp, s, o, spurious);
    HeapStep(cmp, s, o, spurious);
    AnyStep(cmp, s, o, spurious);
    LevelInRange(cmp, s.concurrent, s.mem, s.ops[o2]);
    var s' := Advance(cmp, s, o, spurious);
    if s' != s {
      StepEvolves(cmp, s, s', o);
      EvolvesBasics(s.mem, s'.mem, s'.ops[o].node);
      RankStable(cmp, n, s.mem, s'.mem, s'.ops[o].node, s.ops[o2]);
    }
  }

  lemma FinishedStays(cmp: Comparator, s: State, o: nat, spurious: bool)
    requires o in s.ops && Finished(s.ops[o].pc)
    ensures Advance(cmp, s, o, spurious) == s
  {
  }

  /** The action runs a step of the call, and the step is not a spurious failure. */
  predicate TakesTurn(s: State, a: Action, o: nat) {
    a.Go? && a.o == o && o in s.ops && !FailsSpuriously(s, o, a.spurious)
  }

  /** Whatever happens next, a call's rank falls by one on its own turn and never rises. */
  lemma RankStep(cmp: Comparator, n: nat, s: State, a: Action, o: nat)
    requires TotalOrder(cmp) && Inv(cmp, s) && o in s.ops
    requires 0 < n && |s.mem.heap| <= n && |Do(cmp, s, a).mem.heap| <= n
    ensures var s' := Do(cmp, s, a);
            && o in s'.ops && (Finished(s.ops[o].pc) ==> Finished(s'.ops[o].pc))
            && (!Finished(s.ops[o].pc) ==>
                  Rank(cmp, n, s'.mem, s'.ops[o]) + (if TakesTurn(s, a, o) then 1 else 0)
                  <= Rank(cmp, n, s.mem, s.ops[o]))
  {
    InvMayStep(cmp, s, o);
    hide TotalOrder, Inv, Advance, Rank, MayStep;
    match a
    case Start(_, _, _) =>
    case Go(p, spurious) =>
      if p == o {
        if Finished(s.ops[o].pc) {
          FinishedStays(cmp, s, o, spurious);
        } else {
          OwnRank(cmp, n, s, o, spurious);
        }
      } else if p in s.ops {
        InvMayStep(cmp, s, p);
        MayStepOk(cmp, s, o);
        OtherRank(cmp, n, s, p, spurious, o);
      }
  }

  lemma MayStepOk(cmp: Comparator, s: State, o: nat)
    requires MayStep(cmp, s, o) && o in s.ops
    ensures OpOk(cmp, s.concurrent, s.mem, s.ops[o])
  {
    hide OpOk;
  }

  /** How often a call was scheduled since it started, spurious failures of its weak compare-and-swap not counted. */
  ghost function Turns(cmp: Comparator, capacity: nat, concurrent: bool, acts: seq<Action>, o: nat): nat {
    if acts == [] then 0
    else
      var front := acts[..|acts| - 1];
      Turns(cmp, capacity, concurrent, front, o)
      + if TakesTurn(Run(cmp, capacity, concurrent, front), acts[|acts| - 1], o) then 1 else 0
  }

  lemma StartRank(cmp: Comparator, n: nat, s: State, a: Action, o: nat)
    requires o !in s.ops && o in Do(cmp, s, a).ops
    ensures a.Start? && Rank(cmp, n, Do(cmp, s, a).mem, Do(cmp, s, a).ops[o]) <= Limit(n)
  {
    if a.Go? {
      if a.o in s.ops {
        KeysStep(cmp, s, a.o, a.spurious);
      }
      assert false;
    } else {
      hide DescentRank, Times;
      DescentMonotone(n, a.pick);
    }
  }

  lemma DescentMonotone(n: nat, pick: nat)
    ensures 2 <= DescentRank(n, pick)
    ensures pick < MAX_HEIGHT ==> DescentRank(n, pick) <= DescentRank(n, MAX_HEIGHT - 1)
  {
    if pick < MAX_HEIGHT {
      TimesMonotone(pick, MAX_HEIGHT - 1, PerLevel(n));
    }
    hide Times, PerLevel, Retries;
  }

  lemma OpsOnlyGrow(cmp: Comparator, s: State, a: Action)
    ensures s.ops.Keys <= Do(cmp, s, a).ops.Keys && |s.ops| <= |Do(cmp, s, a).ops|
  {
    if a.Go? && a.o in s.ops {
      KeysStep(cmp, s, a.o, a.spurious);
    }
    hide Advance;
    SubsetIsSmaller(s.ops.Keys, Do(cmp, s, a).ops.Keys);
    assert |s.ops.Keys| == |s.ops| && |Do(cmp, s, a).ops.Keys| == |Do(cmp, s, a).ops|;
  }

  lemma {:induction false} TurnsArePaidFor(cmp: Comparator, capacity: nat, concurrent: bool, acts: seq<Action>, o: nat,
      n: nat)
    requires TotalOrder(cmp) && capacity >= 192 && |Run(cmp, capacity, concurrent, acts).ops| < n
    ensures var s, turns := Run(cmp, capacity, concurrent, acts), Turns(cmp, capacity, concurrent, acts, o);
            && (o !in s.ops ==> turns == 0)
            && (o in s.ops && !Finished(s.ops[o].pc) ==> turns + Rank(cmp, n, s.mem, s.ops[o]) <= Limit(n))
  {
    if acts != [] {
      var front, a := acts[..|acts| - 1], acts[|acts| - 1];
      var s := Run(cmp, capacity, concurrent, front);
      HeapCount(cmp, capacity, concurrent, front);
      HeapCount(cmp, capacity, concurrent, acts);
      RunInv(cmp, capacity, concurrent, front);
      hide TotalOrder, Inv, Rank, Do, Limit;
      OpsOnlyGrow(cmp, s, a);
      TurnsArePaidFor(cmp, capacity, concurrent, front, o, n);
      if o in s.ops {
        RankStep(cmp, n, s, a, o);
      } else if o in Do(cmp, s, a).ops {
        StartRank(cmp, n, s, a, o);
      }
    }
  }

  /** Wait-freedom for finitely many calls: in a run of fewer than n calls, under any schedule of the others, a call
      that has had more than 20 n n + 102 n + 148 turns has answered or run out of memory. */
  lemma CallsFinish(cmp: Comparator, capacity: nat, concurrent: bool, acts: seq<Action>, o: nat)
    requires TotalOrder(cmp) && capacity >= 192 && o in Run(cmp, capacity, concurrent, acts).ops
    requires var n := |Run(cmp, capacity, concurrent, acts).ops| + 1;
             Turns(cmp, capacity, concurrent, acts, o) > 20 * n * n + 102 * n + 148
    ensures Finished(Run(cmp, capacity, concurrent, acts).ops[o].pc)
  {
    var n := |Run(cmp, capacity, concurrent, acts).ops| + 1;
    hide Run, TotalOrder, Turns, Rank, Limit;
    TurnsArePaidFor(cmp, capacity, concurrent, acts, o, n);
    LimitIsQuadratic(n);
  }

  lemma OneTurnMore(cmp: Comparator, capacity: nat, concurrent: bool, acts: seq<Action>, o: nat)
    requires o in Run(cmp, capacity, concurrent, acts).ops
    ensures var more := acts + [Go(o, false)];
            && Run(cmp, capacity, concurrent, more).ops.Keys == Run(cmp, capacity, concurrent, acts).ops.Keys
            && Turns(cmp, capacity, concurrent, more, o) == Turns(cmp, capacity, concurrent, acts, o) + 1
  {
    hide Advance;
    assert (acts + [Go(o, false)])[..|acts|] == acts;
    KeysStep(cmp, Run(cmp, capacity, concurrent, acts), o, false);
  }

  lemma {:induction false} SoloTurns(cmp: Comparator, capacity: nat, concurrent: bool, acts: seq<Action>, o: nat,
      k: nat)
    requires o in Run(cmp, capacity, concurrent, acts).ops
    ensures var solo := acts + seq(k, _ => Go(o, false));
            && Run(cmp, capacity, concurrent, solo).ops.Keys == Run(cmp, capacity, concurrent, acts).ops.Keys
            && Turns(cmp, capacity, concurrent, solo, o) >= k
  {
    hide Run, Turns;
    if k == 0 {
      assert acts + seq(0, _ => Go(o, false)) == acts;
    } else {
      SoloTurns(cmp, capacity, concurrent, acts, o, k - 1);
      var before := acts + seq(k - 1, _ => Go(o, false));
      OneTurnMore(cmp, capacity, concurrent, before, o);
      assert acts + seq(k, _ => Go(o, false)) == before + [Go(o, false)];
    }
  }

  /** Left alone in any reachable state, a call finishes, within a bound that depends on the number of calls only. */
  lemma AloneCallsFinish(cmp: Comparator, capacity: nat, concurrent: bool, acts: seq<Action>, o: nat)
    requires TotalOrder(cmp) && capacity >= 192 && o in Run(cmp, capacity, concurrent, acts).ops
    ensures var n := |Run(cmp, capacity, concurrent, acts).ops| + 1;
            var solo := acts + seq(20 * n * n + 102 * n + 149, _ => Go(o, false));
            o in Run(cmp, capacity, concurrent, solo).ops && Finished(Run(cmp, capacity, concurrent, solo).ops[o].pc)
  {
    var n := |Run(cmp, capacity, concurrent, acts).ops| + 1;
    var k := 20 * n * n + 102 * n + 149;
    hide Run, TotalOrder, Turns;
    SoloTurns(cmp, capacity, concurrent, acts, o, k);
    var s, s' := Run(cmp, capacity, concurrent, acts), Run(cmp, capacity, concurrent, acts + seq(k, _ => Go(o, false)));
    assert |s.ops| == |s.ops.Keys| == |s'.ops.Keys| == |s'.ops|;
    CallsFinish(cmp, capacity, concurrent, acts + seq(k, _ => Go(o, false)), o);
  }
}
