/** Every step of every schedule keeps the invariant. */
module ProtocolRuns {
  import opened ByteStrings
  import opened Comparators
  import opened Levels
  import opened Chains
  import opened MapSpec
  import opened Protocol
  import opened ProtocolInvariant
  import opened ProtocolInterference
  import opened ProtocolEffects
  import opened ProtocolSteps
  import opened ProtocolPutSteps
  import opened ProtocolSeekSteps

  lemma RespondStep(cmp: Comparator, s: State, o: nat)
    requires MayStep(cmp, s, o) && s.ops[o].pc.Respond?
    ensures GoodStep(cmp, s, Goto(s, o, Done(s.ops[o].pc.answer)), o)
  {
    var op := s.ops[o];
    var op' := op.(pc := Done(op.pc.answer));
    if op.call.Put? {
      BudgetsKept(s.mem, op, op');
      assert op.node != 0 && Owns(s.mem, op, op.pick + 1) ==> Owns(s.mem, op', op.pick + 1);
      assert op.node != 0 && Owns(s.mem, op, 0) ==> Owns(s.mem, op', 0);
    }
    LocalStep(cmp, s, o, op');
  }

  lemma SeekTakesStep(cmp: Comparator, s: State, o: nat, spurious: bool)
    requires MayStep(cmp, s, o) && !s.ops[o].call.Put?
    ensures Advance(cmp, s, o, spurious) == s || GoodStep(cmp, s, Advance(cmp, s, o, spurious), o)
  {
    hide MemoryOk, GoodStep, TotalOrder;
    match s.ops[o].pc
    case ReadHeight => ReadHeightStep(cmp, s, o);
    case Walk(_, _) => WalkStep(cmp, s, o);
    case StepOver(_) => StepOverStep(cmp, s, o);
    case Respond(_) => RespondStep(cmp, s, o);
    case Done(_) =>
  }

  lemma PutTakesStep(cmp: Comparator, s: State, o: nat, spurious: bool)
    requires MayStep(cmp, s, o) && s.ops[o].call.Put?
    ensures Advance(cmp, s, o, spurious) == s || GoodStep(cmp, s, Advance(cmp, s, o, spurious), o)
  {
    hide MemoryOk, GoodStep, TotalOrder;
    match s.ops[o].pc
    case ReadHeight => ReadHeightStep(cmp, s, o);
    case Search(_, _) => SearchStep(cmp, s, o);
    case AllocLoad => AllocLoadStep(cmp, s, o);
    case AllocCas(current) => if s.mem.top == current { AllocCasStep(cmp, s, o); } else { AllocRetryStep(cmp, s, o); }
    case Raise(_) => RaiseStep(cmp, s, o, spurious);
    case StoreHeight => StoreHeightStep(cmp, s, o);
    case BackOwn => BackOwnStep(cmp, s, o);
    case BackNext => BackNextStep(cmp, s, o);
    case StoreNext(_) => StoreNextStep(cmp, s, o);
    case SwingPrev(_) => SwingStep(cmp, s, o);
    case Research(_, _) => ResearchStep(cmp, s, o);
    case Respond(_) => RespondStep(cmp, s, o);
    case Done(_) =>
    case OutOfMemory =>
  }

  /** Every step of every call. */
  lemma AnyStep(cmp: Comparator, s: State, o: nat, spurious: bool)
    requires MayStep(cmp, s, o)
    ensures Advance(cmp, s, o, spurious) == s || GoodStep(cmp, s, Advance(cmp, s, o, spurious), o)
  {
    hide Advance, GoodStep, OpOk, MemoryOk, TotalOrder;
    if s.ops[o].call.Put? {
      PutTakesStep(cmp, s, o, spurious);
    } else {
      SeekTakesStep(cmp, s, o, spurious);
    }
  }

  lemma StepFacts(cmp: Comparator, s: State, s': State, o: nat)
    requires GoodStep(cmp, s, s', o)
    ensures o in s.ops && o in s'.ops && s'.ops == s.ops[o := s'.ops[o]]
    ensures (!Writing(s.ops[o]) ==> s'.mem == s.mem) && (Writing(s'.ops[o]) ==> Writing(s.ops[o]))
    ensures forall p :: p in s'.ops && p != o ==> p in s.ops && s'.ops[p] == s.ops[p]
  {
    hide MemoryOk, Evolves, OpOk, Silent, Commits;
  }

  lemma AdvanceKeepsMode(cmp: Comparator, s: State, o: nat, spurious: bool)
    ensures Advance(cmp, s, o, spurious).concurrent == s.concurrent
  {
  }

  // -------------------- the other calls --------------------

  lemma NodeAllocated(cmp: Comparator, concurrent: bool, m: Memory, op: Op)
    requires OpOk(cmp, concurrent, m, op)
    ensures op.node == 0 || op.node in m.heap
  {
  }

  lemma OthersKept(cmp: Comparator, s: State, s': State, o: nat, o2: nat)
    requires MemoryOk(cmp, s.mem) && CallsOk(cmp, s) && Moves(cmp, s, s', o) && o2 in s.ops && o2 != o
    ensures s'.ops[o2] == s.ops[o2] && OpOk(cmp, s'.concurrent, s'.mem, s'.ops[o2])
    ensures s'.ops[o].node == 0 || s'.ops[o].node != s.ops[o2].node
  {
    hide MemoryOk, OpOk;
    var op, op', op2 := s.ops[o], s'.ops[o], s.ops[o2];
    assert OpOk(cmp, s.concurrent, s.mem, op2);
    NodeAllocated(cmp, s.concurrent, s.mem, op2);
    assert op'.node == 0 || op'.node != op2.node;
    assert Undisturbed(s.concurrent, s.mem, s'.mem, op2);
    OpStable(cmp, s.concurrent, s.mem, s'.mem, op'.node, op2);
  }

  lemma CallsKept(cmp: Comparator, s: State, s': State, o: nat)
    requires MemoryOk(cmp, s.mem) && CallsOk(cmp, s) && Moves(cmp, s, s', o)
             && OpOk(cmp, s'.concurrent, s'.mem, s'.ops[o])
    ensures CallsOk(cmp, s')
  {
    hide MemoryOk, Evolves, OpOk;
    forall o2 | o2 in s'.ops && o2 != o
      ensures s'.ops[o2] == s.ops[o2] && OpOk(cmp, s'.concurrent, s'.mem, s'.ops[o2])
      ensures s'.ops[o].node == 0 || s'.ops[o].node != s'.ops[o2].node
    {
      OthersKept(cmp, s, s', o, o2);
    }
  }

  // -------------------- the log --------------------

  lemma ReplaySnoc(log: seq<Event>, e: Event)
    ensures Replay(log + [e]) == Effect(Replay(log), e.call)
  {
    assert (log + [e])[..|log|] == log;
  }

  lemma LegalSnoc(cmp: Comparator, log: seq<Event>, e: Event)
    requires LegalLog(cmp, log) && Legal(cmp, Replay(log), e.call, e.answer)
    ensures LegalLog(cmp, log + [e])
  {
    var log' := log + [e];
    forall j | 0 <= j < |log'| ensures Legal(cmp, Replay(log'[..j]), log'[j].call, log'[j].answer) {
      assert log'[..j] == log[..j];
      assert j == |log| ==> log[..j] == log;
    }
  }

  lemma LoggedKept(m: Memory, m': Memory, log: seq<Event>, log': seq<Event>, mine: nat, o: nat, op: Op)
    requires Evolves(m, m', mine) && (mine == 0 || mine != op.node)
    requires log <= log' && Logged(m, log, o, op)
    ensures Logged(m', log', o, op)
  {
    if Effective(op).Some? {
      assert log'[..op.at] == log[..op.at];
      assert op.node in m'.linked[0] <==> op.node in m.linked[0];
    }
  }

  /** The log's own part of the invariant. */
  ghost predicate LogShape(s: State) {
    forall j {:trigger s.log[j]} :: 0 <= j < |s.log| ==>
      s.log[j].op in s.ops && Effective(s.ops[s.log[j].op]).Some? && s.ops[s.log[j].op].at == j
  }

  lemma SilentLog(cmp: Comparator, s: State, s': State, o: nat)
    requires Inv(cmp, s) && Moves(cmp, s, s', o) && Silent(cmp, s, s', o)
    ensures LogShape(s') && Logged(s'.mem, s'.log, o, s'.ops[o])
  {
    hide HeapOk, LevelOk, CallsOk, LegalLog, Contents, Evolves, Writing;
    assert Logged(s.mem, s.log, o, s.ops[o]);
  }

  lemma CommitLog(cmp: Comparator, s: State, s': State, o: nat)
    requires Inv(cmp, s) && Moves(cmp, s, s', o) && Commits(cmp, s, s', o)
    ensures LogShape(s') && Logged(s'.mem, s'.log, o, s'.ops[o])
    ensures LegalLog(cmp, s'.log) && Replay(s'.log) == Contents(s'.mem.heap, s'.mem.linked[0])
  {
    hide MemoryOk, CallsOk, Evolves, Writing, Legal;
    var e := Event(o, s.ops[o].call, Effective(s'.ops[o]).value);
    ReplaySnoc(s.log, e);
    LegalSnoc(cmp, s.log, e);
    assert s'.log[..|s.log|] == s.log;
    forall j | 0 <= j < |s'.log|
      ensures s'.log[j].op in s'.ops && Effective(s'.ops[s'.log[j].op]).Some? && s'.ops[s'.log[j].op].at == j
    {
      if j < |s.log| {
        assert s'.log[j] == s.log[j];
        assert s.log[j].op != o;
      }
    }
  }

  /** The invariant is inductive. */
  lemma StepKeepsInv(cmp: Comparator, s: State, s': State, o: nat)
    requires Inv(cmp, s) && GoodStep(cmp, s, s', o)
    ensures Inv(cmp, s')
  {
    CallsKept(cmp, s, s', o);
    LevelZero(cmp, s'.mem);
    if Silent(cmp, s, s', o) {
      SilentLog(cmp, s, s', o);
    } else {
      CommitLog(cmp, s, s', o);
    }
    LogKept(cmp, s, s', o);
  }

  lemma LogKept(cmp: Comparator, s: State, s': State, o: nat)
    requires Inv(cmp, s) && Moves(cmp, s, s', o) && s.log <= s'.log
    requires LogShape(s') && Logged(s'.mem, s'.log, o, s'.ops[o]) && LegalLog(cmp, s'.log)
    requires LevelOk(cmp, s'.mem.heap, s'.mem.linked[0], 0) && Replay(s'.log) == Contents(s'.mem.heap, s'.mem.linked[0])
    ensures LogOk(cmp, s')
  {
    forall o2 | o2 in s'.ops ensures Logged(s'.mem, s'.log, o2, s'.ops[o2]) {
      if o2 != o {
        OthersKept(cmp, s, s', o, o2);
        assert Logged(s.mem, s.log, o2, s.ops[o2]);
        LoggedKept(s.mem, s'.mem, s.log, s'.log, s'.ops[o].node, o2, s.ops[o2]);
      }
    }
  }

  // -------------------- runs --------------------

  lemma FreshInv(cmp: Comparator, capacity: nat, concurrent: bool)
    requires capacity >= 192
    ensures Inv(cmp, Fresh(capacity, concurrent))
  {
    var s := Fresh(capacity, concurrent);
    var m := s.mem;
    forall i | 0 <= i < MAX_HEIGHT ensures LevelOk(cmp, m.heap, m.linked[i], i) {
    }
    assert MemoryOk(cmp, m);
    assert Contents(m.heap, m.linked[0]) == map[];
  }

  lemma StartCalls(cmp: Comparator, s: State, s': State, o: nat)
    requires CallsOk(cmp, s) && o !in s.ops && o in s'.ops && s' == s.(ops := s.ops[o := s'.ops[o]])
    requires OpOk(cmp, s.concurrent, s.mem, s'.ops[o]) && s'.ops[o].node == 0
    requires !s.concurrent && s'.ops[o].call.Put? ==> forall p :: p in s.ops ==> !Writing(s.ops[p])
    ensures CallsOk(cmp, s')
  {
    hide OpOk;
    assert forall p :: p in s.ops ==> s'.ops[p] == s.ops[p];
  }

  lemma StartLog(cmp: Comparator, s: State, s': State, o: nat)
    requires MemoryOk(cmp, s.mem) && LogOk(cmp, s)
    requires o !in s.ops && o in s'.ops && s' == s.(ops := s.ops[o := s'.ops[o]]) && Effective(s'.ops[o]) == None
    ensures LogOk(cmp, s')
  {
    hide MemoryOk, LegalLog, Contents, DistinctKeys;
    forall p | p in s'.ops ensures Logged(s'.mem, s'.log, p, s'.ops[p]) {
      if p != o {
        assert s'.ops[p] == s.ops[p];
      }
    }
    forall j | 0 <= j < |s'.log|
      ensures s'.log[j].op in s'.ops && Effective(s'.ops[s'.log[j].op]).Some? && s'.ops[s'.log[j].op].at == j
    {
      assert s.log[j].op != o;
    }
  }

  lemma StartKeepsInv(cmp: Comparator, s: State, a: Action)
    requires a.Start? && Inv(cmp, s)
    ensures Inv(cmp, Do(cmp, s, a))
  {
    if MayStart(s, a) {
      var s' := Do(cmp, s, a);
      assert OpOk(cmp, s.concurrent, s.mem, s'.ops[a.o]);
      hide MemoryOk, CallsOk, LogOk, OpOk;
      StartCalls(cmp, s, s', a.o);
      StartLog(cmp, s, s', a.o);
    }
  }

  lemma DoKeepsInv(cmp: Comparator, s: State, a: Action)
    requires TotalOrder(cmp) && Inv(cmp, s)
    ensures Inv(cmp, Do(cmp, s, a))
  {
    match a
    case Start(_, _, _) => StartKeepsInv(cmp, s, a);
    case Go(o, spurious) =>
      if o in s.ops {
        assert OpOk(cmp, s.concurrent, s.mem, s.ops[o]);
        if s.ops[o].call.Put? {
          PutTakesStep(cmp, s, o, spurious);
        } else {
          SeekTakesStep(cmp, s, o, spurious);
        }
        if Advance(cmp, s, o, spurious) != s {
          StepKeepsInv(cmp, s, Advance(cmp, s, o, spurious), o);
        }
      }
  }

  lemma InvMayStep(cmp: Comparator, s: State, o: nat)
    requires TotalOrder(cmp) && Inv(cmp, s) && o in s.ops
    ensures MayStep(cmp, s, o)
  {
    hide TotalOrder, MemoryOk, LogOk, OpOk;
    assert s.ops[o] == s.ops[o];
  }

  /** In every state of every run, under every schedule, the invariant holds. */
  lemma {:induction false} RunInv(cmp: Comparator, capacity: nat, concurrent: bool, acts: seq<Action>)
    requires TotalOrder(cmp) && capacity >= 192
    ensures Inv(cmp, Run(cmp, capacity, concurrent, acts))
  {
    if acts == [] {
      FreshInv(cmp, capacity, concurrent);
    } else {
      RunInv(cmp, capacity, concurrent, acts[..|acts| - 1]);
      DoKeepsInv(cmp, Run(cmp, capacity, concurrent, acts[..|acts| - 1]), acts[|acts| - 1]);
    }
  }
}
