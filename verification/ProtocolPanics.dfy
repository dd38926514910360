/** When a put may panic for lack of room, however it races with others for the bump pointer. */
module ProtocolPanics {
  import opened Comparators
  import opened Levels
  import opened NodeSizes
  import opened MapSpec
  import opened Protocol
  import opened ProtocolInvariant
  import opened ProtocolRuns
  import opened ProtocolProgress

  /** The node of a put that panicked does not fit. */
  ghost predicate PanicIsDue(s: State, o: nat) {
    o in s.ops && s.ops[o].pc.OutOfMemory? && s.ops[o].call.Put? ==>
      OrHead(s.mem.top) + NodeBytes(s.ops[o].call.key, s.ops[o].call.value, s.ops[o].pick) > s.mem.capacity
  }

  // -------------------- only the check before the CAS panics --------------------

  predicate NoPanic(s: State, o: nat) {
    o in s.ops && !s.ops[o].pc.OutOfMemory?
  }

  lemma EnterNoPanic(op: Op, concurrent: bool, level: nat)
    ensures !EnterLevel(op, concurrent, level).pc.OutOfMemory?
  {
  }

  lemma SearchNoPanic(cmp: Comparator, s: State, o: nat, level: nat, x: nat)
    requires o in s.ops && s.ops[o].call.Put?
    ensures NoPanic(StepSearch(cmp, s, o, level, x), o) && NoPanic(StepLateSearch(cmp, s, o, level, x), o)
    ensures NoPanic(StepResearch(cmp, s, o, level, x), o)
  {
    match Probe(cmp, s.mem.heap, s.ops[o].call.key, x, level)
    case Found(p, q) => EnterNoPanic(Splice(s.ops[o], s.mem, level, p, q), s.concurrent, level);
    case _ =>
    hide EnterLevel, Probe;
  }

  lemma AllocCasNoPanic(s: State, o: nat, current: nat)
    requires o in s.ops && s.ops[o].call.Put?
    ensures NoPanic(StepAllocCas(s, o, current), o)
  {
    EnterNoPanic(s.ops[o].(node := OrHead(current)), s.concurrent, 0);
    hide EnterLevel;
  }

  lemma RaiseNoPanic(s: State, o: nat, current: nat, spurious: bool)
    requires o in s.ops
    ensures NoPanic(StepRaise(s, o, current, spurious), o) && NoPanic(StepStoreHeight(s, o), o)
  {
    EnterNoPanic(s.ops[o], s.concurrent, 0);
    hide EnterLevel;
  }

  lemma LinkNoPanic(s: State, o: nat, level: nat)
    requires o in s.ops
    ensures NoPanic(StepBackOwn(s, o), o) && NoPanic(StepBackNext(s, o), o)
    ensures NoPanic(StepStoreNext(s, o, level), o) && NoPanic(StepSwingPrev(s, o, level), o)
  {
    EnterNoPanic(s.ops[o], s.concurrent, level + 1);
    hide EnterLevel;
  }

  lemma SeekNoPanic(cmp: Comparator, s: State, o: nat, level: nat, x: nat)
    requires o in s.ops
    ensures NoPanic(StepReadHeight(s, o), o)
    ensures NoPanic(StepWalk(cmp, s, o, level, x), o) && NoPanic(StepStepOver(s, o, x), o)
  {
  }

  lemma AllocLoadPanics(s: State, o: nat)
    requires o in s.ops && s.ops[o].call.Put?
    ensures PanicIsDue(StepAllocLoad(s, o), o)
  {
  }

  /** A call's own step panics only when its node does not fit. */
  lemma OwnPanic(cmp: Comparator, s: State, o: nat, spurious: bool)
    requires o in s.ops && PanicIsDue(s, o)
    ensures PanicIsDue(Advance(cmp, s, o, spurious), o)
  {
    hide StepReadHeight, StepSearch, StepAllocLoad, StepAllocCas, StepRaise, StepStoreHeight, StepBackOwn, StepBackNext;
    hide StepStoreNext, StepSwingPrev, StepResearch, StepLateSearch, StepWalk, StepStepOver, NodeBytes;
    SeekNoPanic(cmp, s, o, 0, 0);
    match s.ops[o].pc
    case Search(level, x) => if s.ops[o].call.Put? { SearchNoPanic(cmp, s, o, level, x); }
    case Research(level, x) => if s.ops[o].call.Put? { SearchNoPanic(cmp, s, o, level, x); }
    case LateSearch(level, x) => if s.ops[o].call.Put? { SearchNoPanic(cmp, s, o, level, x); }
    case AllocLoad => if s.ops[o].call.Put? { AllocLoadPanics(s, o); }
    case AllocCas(current) => if s.ops[o].call.Put? { AllocCasNoPanic(s, o, current); }
    case Raise(current) => RaiseNoPanic(s, o, current, spurious);
    case StoreHeight => RaiseNoPanic(s, o, 0, spurious);
    case BackOwn => LinkNoPanic(s, o, 0);
    case BackNext => LinkNoPanic(s, o, 0);
    case StoreNext(level) => LinkNoPanic(s, o, level);
    case SwingPrev(level) => LinkNoPanic(s, o, level);
    case Walk(level, x) => SeekNoPanic(cmp, s, o, level, x);
    case StepOver(x) => SeekNoPanic(cmp, s, o, 0, x);
    case _ =>
  }

  // -------------------- over runs --------------------

  /** The bump pointer never moves back. */
  lemma TopGrows(cmp: Comparator, s: State, o: nat, spurious: bool)
    requires o in s.ops
    ensures var s' := Advance(cmp, s, o, spurious); s.mem.top <= s'.mem.top && s'.mem.capacity == s.mem.capacity
  {
    hide Advance;
    KeysStep(cmp, s, o, spurious);
  }

  lemma OtherPanic(cmp: Comparator, s: State, p: nat, spurious: bool, o: nat)
    requires TotalOrder(cmp) && Inv(cmp, s) && p in s.ops && o in s.ops && o != p && PanicIsDue(s, o)
    ensures PanicIsDue(Advance(cmp, s, p, spurious), o)
  {
    hide Advance, NodeBytes, Inv, TotalOrder;
    InvMayStep(cmp, s, p);
    OthersSame(cmp, s, p, spurious);
    TopGrows(cmp, s, p, spurious);
  }

  lemma PanicStep(cmp: Comparator, s: State, a: Action, o: nat)
    requires TotalOrder(cmp) && Inv(cmp, s) && PanicIsDue(s, o)
    ensures PanicIsDue(Do(cmp, s, a), o)
  {
    hide TotalOrder, Inv, Advance, NodeBytes;
    match a
    case Start(_, _, _) =>
    case Go(p, spurious) =>
      if p in s.ops {
        if p == o {
          OwnPanic(cmp, s, o, spurious);
        } else if o in s.ops {
          OtherPanic(cmp, s, p, spurious, o);
        } else {
          hide KeepsNodes, AddsNode;
          NoNewCalls(cmp, s, p, spurious);
        }
      } else {
        NobodySteps(cmp, s, p, spurious);
      }
  }

  /** In every run, a put panics only when its node does not fit in what is left of the arena, and it never fits again:
      losing a race for room is no reason to give up. */
  lemma {:induction false} PutsPanicOnlyWhenFull(cmp: Comparator, capacity: nat, concurrent: bool, acts: seq<Action>,
      o: nat)
    requires TotalOrder(cmp) && capacity >= 192
    ensures var s := Run(cmp, capacity, concurrent, acts);
            && s.mem.capacity == capacity
            && (o in s.ops && s.ops[o].pc.OutOfMemory? && s.ops[o].call.Put? ==>
                  OrHead(s.mem.top) + NodeBytes(s.ops[o].call.key, s.ops[o].call.value, s.ops[o].pick) > capacity)
  {
    if acts != [] {
      var front, a := acts[..|acts| - 1], acts[|acts| - 1];
      PutsPanicOnlyWhenFull(cmp, capacity, concurrent, front, o);
      RunInv(cmp, capacity, concurrent, front);
      hide TotalOrder, Inv, NodeBytes, Advance;
      var s := Run(cmp, capacity, concurrent, front);
      PanicStep(cmp, s, a, o);
      if a.Go? && a.o in s.ops {
        TopGrows(cmp, s, a.o, a.spurious);
      }
    }
  }

  // -------------------- the list height --------------------

  /** The list height is the draw of some put that has allocated, or still 0. */
  ghost predicate HeightIsDrawn(s: State) {
    s.mem.height == 0 || exists o {:trigger s.ops[o]} ::
      o in s.ops && s.ops[o].call.Put? && s.ops[o].node != 0 && s.ops[o].pick == s.mem.height
  }

  lemma RaisersAllocated(cmp: Comparator, s: State, o: nat)
    requires Inv(cmp, s) && o in s.ops && (s.ops[o].pc.Raise? || s.ops[o].pc.StoreHeight?)
    ensures s.ops[o].call.Put? && s.ops[o].node != 0
  {
    hide MemoryOk, LogOk, Splices, Budgets;
    assert OpOk(cmp, s.concurrent, s.mem, s.ops[o]);
  }

  lemma NodeStays(cmp: Comparator, s: State, o: nat, spurious: bool)
    requires TotalOrder(cmp) && Inv(cmp, s) && o in s.ops
    ensures o in Advance(cmp, s, o, spurious).ops
    ensures s.ops[o].node != 0 ==> Advance(cmp, s, o, spurious).ops[o].node != 0
  {
    hide Advance, Inv, TotalOrder;
    KeysStep(cmp, s, o, spurious);
    hide KeepsNodes;
    if s.ops[o].pc.AllocCas? {
      InvMayStep(cmp, s, o);
      AllocatorIsNew(cmp, s, o);
    }
  }

  lemma HeightStep(cmp: Comparator, s: State, o: nat, spurious: bool)
    requires TotalOrder(cmp) && Inv(cmp, s) && o in s.ops && HeightIsDrawn(s)
    ensures HeightIsDrawn(Advance(cmp, s, o, spurious))
  {
    hide Advance, Inv, TotalOrder;
    var s' := Advance(cmp, s, o, spurious);
    KeysStep(cmp, s, o, spurious);
    InvMayStep(cmp, s, o);
    OthersSame(cmp, s, o, spurious);
    NodeStays(cmp, s, o, spurious);
    if s'.mem.height != s.mem.height {
      RaisersAllocated(cmp, s, o);
      assert s'.ops[o] == s'.ops[o];
    } else if s.mem.height != 0 {
      var p :| p in s.ops && s.ops[p].call.Put? && s.ops[p].node != 0 && s.ops[p].pick == s.mem.height;
      assert p != o ==> s'.ops[p] == s.ops[p];
      assert s'.ops[p] == s'.ops[p];
    }
  }

  /** In every run the list height is one of the heights drawn: it is raised to cover a node and no further. */
  lemma {:induction false} HeightIsSomeDraw(cmp: Comparator, capacity: nat, concurrent: bool, acts: seq<Action>)
    requires TotalOrder(cmp) && capacity >= 192
    ensures HeightIsDrawn(Run(cmp, capacity, concurrent, acts))
  {
    if acts != [] {
      var front, a := acts[..|acts| - 1], acts[|acts| - 1];
      HeightIsSomeDraw(cmp, capacity, concurrent, front);
      RunInv(cmp, capacity, concurrent, front);
      hide TotalOrder, Inv, Advance;
      var s := Run(cmp, capacity, concurrent, front);
      match a
      case Start(o, call, pick) =>
        if s.mem.height != 0 {
          var p :| p in s.ops && s.ops[p].call.Put? && s.ops[p].node != 0 && s.ops[p].pick == s.mem.height;
          assert Do(cmp, s, a).ops[p] == s.ops[p];
        }
      case Go(o, spurious) =>
        if o in s.ops {
          HeightStep(cmp, s, o, spurious);
        } else {
          NobodySteps(cmp, s, o, spurious);
        }
    }
  }
}
