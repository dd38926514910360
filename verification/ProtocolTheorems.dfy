/** What the concurrent skiplist promises, for every schedule of any number of calls. */
module ProtocolTheorems {
  import opened ByteStrings
  import opened Comparators
  import opened Levels
  import opened Chains
  import opened MapSpec
  import opened Protocol
  import opened ProtocolInvariant
  import opened ProtocolEffects
  import opened ProtocolSteps
  import opened ProtocolRuns

  /** A call has returned, or is about to. */
  predicate Answered(op: Op) {
    op.pc.Respond? || op.pc.Done?
  }

  // -------------------- memory safety and assertions --------------------

  /** No call ever dereferences a non-node, indexes past a tower, fails the assertion that duplicates are found on level
      0 only, or finds a predecessor it never set. */
  lemma NoFaults(cmp: Comparator, capacity: nat, concurrent: bool, acts: seq<Action>, o: nat)
    requires TotalOrder(cmp) && capacity >= 192
    requires o in Run(cmp, capacity, concurrent, acts).ops
    ensures var op := Run(cmp, capacity, concurrent, acts).ops[o];
            !op.pc.Fault? && !op.pc.LateSearch?
  {
    hide MemoryOk, LogOk, TotalOrder, Run;
    RunInv(cmp, capacity, concurrent, acts);
    var s := Run(cmp, capacity, concurrent, acts);
    assert OpOk(cmp, s.concurrent, s.mem, s.ops[o]);
  }

  /** A put that runs out of arena has changed nothing and never takes effect. */
  lemma OutOfMemoryLeavesNoTrace(cmp: Comparator, capacity: nat, concurrent: bool, acts: seq<Action>, o: nat)
    requires TotalOrder(cmp) && capacity >= 192
    requires var s := Run(cmp, capacity, concurrent, acts); o in s.ops && s.ops[o].pc.OutOfMemory?
    ensures var s := Run(cmp, capacity, concurrent, acts);
            s.ops[o].node == 0 && forall j {:trigger s.log[j]} :: 0 <= j < |s.log| ==> s.log[j].op != o
  {
    hide MemoryOk, LegalLog, TotalOrder, Run;
    RunInv(cmp, capacity, concurrent, acts);
    var s := Run(cmp, capacity, concurrent, acts);
    assert OpOk(cmp, s.concurrent, s.mem, s.ops[o]);
  }

  // -------------------- shape --------------------

  /** Each level is a finite, strictly sorted chain in memory, and a subsequence of the level below. */
  lemma LevelsAreSortedChains(cmp: Comparator, capacity: nat, concurrent: bool, acts: seq<Action>, i: nat)
      returns (upper: seq<nat>, lower: seq<nat>)
    requires TotalOrder(cmp) && capacity >= 192 && 0 < i < MAX_HEIGHT
    ensures var m := Run(cmp, capacity, concurrent, acts).mem;
            && IsTheWalk(m.heap, i, upper) && IsTheWalk(m.heap, i - 1, lower)
            && (forall x :: x in upper ==> x in m.heap) && (forall x :: x in lower ==> x in m.heap)
            && StrictlySorted(cmp, m.heap, upper) && StrictlySorted(cmp, m.heap, lower)
            && IsSubsequence(upper, lower)
  {
    hide LogOk, CallsOk, Run, TotalOrder;
    RunInv(cmp, capacity, concurrent, acts);
    var m := Run(cmp, capacity, concurrent, acts).mem;
    assert LevelOk(cmp, m.heap, m.linked[i], i) && LevelOk(cmp, m.heap, m.linked[i - 1], i - 1);
    upper := LevelIsSortedChain(cmp, m.heap, m.linked[i], i);
    lower := LevelIsSortedChain(cmp, m.heap, m.linked[i - 1], i - 1);
    forall x | x in upper ensures x in lower {
      assert x in m.linked[i];
    }
    SortedSubsetIsSubsequence(cmp, m.heap, upper, lower);
  }

  /** The list height is at least the height of every linked node, even while the node's upper levels are still to come
      or after an abandoned insert; above it the head's links are empty. */
  lemma HeightBoundsLinks(cmp: Comparator, capacity: nat, concurrent: bool, acts: seq<Action>, i: nat)
    requires TotalOrder(cmp) && capacity >= 192 && i < MAX_HEIGHT
    ensures var m := Run(cmp, capacity, concurrent, acts).mem;
            && |m.linked| == MAX_HEIGHT && HasLevel(m.heap, HEAD, i)
            && (i > m.height ==> Next(m.heap, HEAD, i) == 0 && m.linked[i] == {HEAD})
            && (forall x :: x in m.linked[i] && x != HEAD ==> x in m.heap && i <= m.heap[x].height <= m.height)
  {
    RunInv(cmp, capacity, concurrent, acts);
    var s := Run(cmp, capacity, concurrent, acts);
    ShapeAt(cmp, s.mem, i);
    hide Run, TotalOrder, Inv;
    forall x | x in s.mem.linked[i] && x != HEAD ensures x in s.mem.heap && i <= s.mem.heap[x].height <= s.mem.height {
      LevelMember(cmp, s, i, x);
      LinkedNodesHaveOwners(cmp, capacity, concurrent, acts, x);
      var o :| o in s.ops && s.ops[o].node == x;
      OwnerIsBounded(cmp, s, o);
    }
  }

  lemma ShapeAt(cmp: Comparator, m: Memory, i: nat)
    requires MemoryOk(cmp, m) && i < MAX_HEIGHT
    ensures |m.linked| == MAX_HEIGHT && HasLevel(m.heap, HEAD, i)
    ensures i > m.height ==> Next(m.heap, HEAD, i) == 0 && m.linked[i] == {HEAD}
  {
    assert LevelOk(cmp, m.heap, m.linked[i], i);
    if i > m.height {
      EmptyLevel(cmp, m, i);
    }
  }

  lemma LevelMember(cmp: Comparator, s: State, i: nat, x: nat)
    requires Inv(cmp, s) && i < MAX_HEIGHT && |s.mem.linked| == MAX_HEIGHT && x in s.mem.linked[i]
    ensures x in s.mem.linked[0] && x in s.mem.heap && i <= s.mem.heap[x].height
  {
    hide CallsOk, LogOk;
    assert LevelOk(cmp, s.mem.heap, s.mem.linked[i], i);
    Downward(cmp, s.mem, i, x);
    assert s.mem.heap[x] == s.mem.heap[x];
  }

  /** A put links its node only once the list height covers it. */
  lemma OwnerIsBounded(cmp: Comparator, s: State, o: nat)
    requires Inv(cmp, s) && o in s.ops && s.ops[o].node != HEAD
    requires 0 < |s.mem.linked| && s.ops[o].node in s.mem.linked[0]
    ensures s.ops[o].node in s.mem.heap && s.mem.heap[s.ops[o].node].height <= s.mem.height
  {
    hide MemoryOk, LogOk, OpOk;
    assert OpOk(cmp, s.concurrent, s.mem, s.ops[o]);
    NodeIsBounded(cmp, s.concurrent, s.mem, s.ops[o]);
  }

  lemma NodeIsBounded(cmp: Comparator, concurrent: bool, m: Memory, op: Op)
    requires MemoryOk(cmp, m) && OpOk(cmp, concurrent, m, op) && op.node in m.linked[0] && op.node != HEAD
    ensures op.node in m.heap && m.heap[op.node].height <= m.height
  {
    LinkedIsNode(cmp, m, op.node);
    LinkedOwner(cmp, concurrent, m, op);
    hide OpOk, HeapOk, LevelsOk;
  }

  lemma LinkedOwner(cmp: Comparator, concurrent: bool, m: Memory, op: Op)
    requires OpOk(cmp, concurrent, m, op) && |m.linked| == MAX_HEIGHT && op.node in m.linked[0] && op.node != 0
    ensures op.node in m.heap && m.heap[op.node].height == op.pick < MAX_HEIGHT
    ensures op.pick <= m.height || op.node in m.linked[op.pick]
  {
    hide Splices, Budgets, Standing;
    assert m.linked[0] == m.linked[0];
    if op.call.Put? && op.pick < MAX_HEIGHT {
      assert m.linked[op.pick] == m.linked[op.pick];
    }
  }

  lemma LinkedIsNode(cmp: Comparator, m: Memory, x: nat)
    requires MemoryOk(cmp, m) && x in m.linked[0]
    ensures |m.linked| == MAX_HEIGHT && x != 0 && x in m.heap
  {
    LevelZero(cmp, m);
  }

  // -------------------- what time preserves --------------------

  /** Everything linked stays linked, under the same key and value; heights and the log only grow; answers stand. */
  ghost predicate Later(s: State, s': State) {
    && |s.mem.linked| == |s'.mem.linked| == |s.mem.links| == |s'.mem.links| == MAX_HEIGHT
    && s.mem.height <= s'.mem.height
    && (forall i, x {:trigger x in s.mem.linked[i]} :: 0 <= i < MAX_HEIGHT && x in s.mem.linked[i] ==>
          x in s'.mem.linked[i])
    && (forall i {:trigger s'.mem.links[i]} {:trigger s.mem.links[i]} :: 0 <= i < MAX_HEIGHT ==>
          s.mem.links[i] <= s'.mem.links[i])
    && (forall x {:trigger x in s.mem.heap} :: x in s.mem.heap ==>
          x in s'.mem.heap && s'.mem.heap[x].key == s.mem.heap[x].key && s'.mem.heap[x].value == s.mem.heap[x].value)
    && s.log <= s'.log
    && (forall o {:trigger o in s.ops} :: o in s.ops ==> o in s'.ops && (Effective(s.ops[o]).Some? ==>
          s'.ops[o].at == s.ops[o].at && Effective(s'.ops[o]) == Effective(s.ops[o])))
  }

  lemma LaterTransitive(a: State, b: State, c: State)
    requires Later(a, b) && Later(b, c)
    ensures Later(a, c)
  {
    forall i | 0 <= i < MAX_HEIGHT ensures a.mem.links[i] <= c.mem.links[i] {
      assert a.mem.links[i] <= b.mem.links[i] <= c.mem.links[i];
    }
  }

  lemma GoodStepLater(cmp: Comparator, s: State, s': State, o: nat)
    requires GoodStep(cmp, s, s', o)
    ensures Later(s, s')
  {
    forall i | 0 <= i < MAX_HEIGHT ensures s.mem.links[i] <= s'.mem.links[i] {
    }
  }

  lemma DoLater(cmp: Comparator, s: State, a: Action)
    requires TotalOrder(cmp) && Inv(cmp, s)
    ensures Later(s, Do(cmp, s, a))
  {
    hide HeapOk, LogOk, TotalOrder, OpOk, GoodStep;
    match a
    case Start(_, _, _) =>
    case Go(o, spurious) =>
      if o in s.ops {
        assert OpOk(cmp, s.concurrent, s.mem, s.ops[o]);
        if s.ops[o].call.Put? {
          PutTakesStep(cmp, s, o, spurious);
        } else {
          SeekTakesStep(cmp, s, o, spurious);
        }
        if Advance(cmp, s, o, spurious) != s {
          GoodStepLater(cmp, s, Advance(cmp, s, o, spurious), o);
        }
      }
  }

  lemma LaterSelf(cmp: Comparator, s: State)
    requires Inv(cmp, s)
    ensures Later(s, s)
  {
  }

  lemma RunSnoc(cmp: Comparator, capacity: nat, concurrent: bool, acts: seq<Action>, more: seq<Action>)
    requires more != []
    ensures Run(cmp, capacity, concurrent, acts + more) ==
            Do(cmp, Run(cmp, capacity, concurrent, acts + more[..|more| - 1]), more[|more| - 1])
  {
    hide Do;
    assert (acts + more)[..|acts + more| - 1] == acts + more[..|more| - 1];
  }

  /** Nothing a run has established is lost by running on: in particular no linked write. */
  lemma {:induction false} RunsOnlyGrow(cmp: Comparator, capacity: nat, concurrent: bool, acts: seq<Action>,
      more: seq<Action>)
    requires TotalOrder(cmp) && capacity >= 192
    ensures Later(Run(cmp, capacity, concurrent, acts), Run(cmp, capacity, concurrent, acts + more))
    decreases |more|
  {
    if more == [] {
      RunInv(cmp, capacity, concurrent, acts);
      LaterSelf(cmp, Run(cmp, capacity, concurrent, acts));
      assert acts + more == acts;
    } else {
      var front := more[..|more| - 1];
      RunsOnlyGrow(cmp, capacity, concurrent, acts, front);
      LastLater(cmp, capacity, concurrent, acts + front, more[|more| - 1]);
      RunSnoc(cmp, capacity, concurrent, acts, more);
      LaterTransitive(Run(cmp, capacity, concurrent, acts), Run(cmp, capacity, concurrent, acts + front),
                      Run(cmp, capacity, concurrent, acts + more));
    }
  }

  lemma LastLater(cmp: Comparator, capacity: nat, concurrent: bool, acts: seq<Action>, a: Action)
    requires TotalOrder(cmp) && capacity >= 192
    ensures Later(Run(cmp, capacity, concurrent, acts), Do(cmp, Run(cmp, capacity, concurrent, acts), a))
  {
    RunInv(cmp, capacity, concurrent, acts);
    DoLater(cmp, Run(cmp, capacity, concurrent, acts), a);
  }

  // -------------------- linearizability --------------------

  /** The log is a sequential history of the insert-if-absent map, and it ends in what level 0 stores. */
  lemma LogIsSequentialHistory(cmp: Comparator, capacity: nat, concurrent: bool, acts: seq<Action>)
      returns (chain: seq<nat>)
    requires TotalOrder(cmp) && capacity >= 192
    ensures var s := Run(cmp, capacity, concurrent, acts);
            && LegalLog(cmp, s.log)
            && IsTheWalk(s.mem.heap, 0, chain)
            && Spells(s.mem.heap, chain, Replay(s.log))
  {
    RunInv(cmp, capacity, concurrent, acts);
    var s := Run(cmp, capacity, concurrent, acts);
    LevelZero(cmp, s.mem);
    chain := LevelIsSortedChain(cmp, s.mem.heap, s.mem.linked[0], 0);
    ContentsSpelled(s.mem.heap, s.mem.linked[0], chain);
  }

  /** Every answered call is in that history exactly once, with the answer it returns; unanswered calls may be. */
  lemma AnswersComeFromTheHistory(cmp: Comparator, capacity: nat, concurrent: bool, acts: seq<Action>, o: nat)
      returns (at: nat)
    requires TotalOrder(cmp) && capacity >= 192
    requires var s := Run(cmp, capacity, concurrent, acts); o in s.ops && Answered(s.ops[o])
    ensures var s := Run(cmp, capacity, concurrent, acts);
            && at < |s.log| && s.log[at] == Event(o, s.ops[o].call, s.ops[o].pc.answer)
            && forall j {:trigger s.log[j]} :: 0 <= j < |s.log| && s.log[j].op == o ==> j == at
  {
    RunInv(cmp, capacity, concurrent, acts);
    hide Inv, TotalOrder, Run;
    at := AnsweredIsLogged(cmp, Run(cmp, capacity, concurrent, acts), o);
  }

  lemma AnsweredIsLogged(cmp: Comparator, s: State, o: nat) returns (at: nat)
    requires Inv(cmp, s) && o in s.ops && Answered(s.ops[o])
    ensures at == s.ops[o].at && at < |s.log| && s.log[at] == Event(o, s.ops[o].call, s.ops[o].pc.answer)
    ensures forall j {:trigger s.log[j]} :: 0 <= j < |s.log| && s.log[j].op == o ==> j == at
  {
    hide Inv;
    LoggedCall(cmp, s, o);
    at := s.ops[o].at;
    forall j | 0 <= j < |s.log| && s.log[j].op == o ensures j == at {
      LogOwner(cmp, s, j);
    }
  }

  lemma LogOwner(cmp: Comparator, s: State, j: nat)
    requires Inv(cmp, s) && j < |s.log|
    ensures s.log[j].op in s.ops && s.ops[s.log[j].op].at == j
  {
    hide MemoryOk, CallsOk, LegalLog, Logged;
    assert s.log[j] == s.log[j];
  }

  /** What an answered put tells its caller: nothing if and only if, right after its turn in the history, the key has
      the
      value given; otherwise the pair given, as rejected. */
  lemma PutAnswerMeans(cmp: Comparator, capacity: nat, concurrent: bool, acts: seq<Action>, o: nat) returns (at: nat)
    requires TotalOrder(cmp) && capacity >= 192
    requires var s := Run(cmp, capacity, concurrent, acts); o in s.ops && Answered(s.ops[o]) && s.ops[o].call.Put?
    ensures var s := Run(cmp, capacity, concurrent, acts);
            var op := s.ops[o];
            && at < |s.log| && s.log[at] == Event(o, op.call, op.pc.answer) && op.pc.answer.PutAnswer?
            && var m := Replay(s.log[..at + 1]);
               && op.call.key in m
               && (op.pc.answer.rejected == None <==> m[op.call.key] == op.call.value)
               && (op.pc.answer.rejected != None ==> op.pc.answer.rejected == Some((op.call.key, op.call.value)))
  {
    RunInv(cmp, capacity, concurrent, acts);
    at := AnswersComeFromTheHistory(cmp, capacity, concurrent, acts, o);
    hide Run, Inv, Replay, TotalOrder;
    LoggedIsLegal(cmp, Run(cmp, capacity, concurrent, acts), at);
    TurnMeans(cmp, Run(cmp, capacity, concurrent, acts).log, at);
  }

  lemma TurnMeans(cmp: Comparator, log: seq<Event>, at: nat)
    requires at < |log| && log[at].call.Put? && Legal(cmp, Replay(log[..at]), log[at].call, log[at].answer)
    ensures log[at].answer.PutAnswer?
    ensures var m, key, rejected := Replay(log[..at + 1]), log[at].call.key, log[at].answer.rejected;
            && key in m && (rejected == None <==> m[key] == log[at].call.value)
            && (rejected != None ==> rejected == Some((key, log[at].call.value)))
  {
    assert log[..at + 1][..at] == log[..at];
    InsertMeans(Replay(log[..at]), log[at].call.key, log[at].call.value);
  }

  /** What `get_with_key` and `get` make of the answer of `lower_bound`. */
  function ExactMatch(answer: Answer, key: Bytes): Option<Bytes>
    requires answer.SeekAnswer?
  {
    match answer.found
    case None => None
    case Some(entry) => if entry.0 == key then Some(entry.1) else None
  }

  /** `get` among writers, which is `lower_bound` and a comparison of bytes: exact lookup in the map at the call's turn
      in the history. `contains` asks whether there is a value. */
  lemma GetIsExactLookup(cmp: Comparator, capacity: nat, concurrent: bool, acts: seq<Action>, o: nat) returns (at: nat)
    requires TotalOrder(cmp) && capacity >= 192
    requires var s := Run(cmp, capacity, concurrent, acts);
             o in s.ops && Answered(s.ops[o]) && s.ops[o].call.LowerBound?
    ensures var s := Run(cmp, capacity, concurrent, acts);
            var op := s.ops[o];
            && at < |s.log| && s.log[at] == Event(o, op.call, op.pc.answer) && op.pc.answer.SeekAnswer?
            && var m := Replay(s.log[..at]);
               ExactMatch(op.pc.answer, op.call.key) == if op.call.key in m then Some(m[op.call.key]) else None
  {
    RunInv(cmp, capacity, concurrent, acts);
    at := AnswersComeFromTheHistory(cmp, capacity, concurrent, acts, o);
    hide Run;
    var s := Run(cmp, capacity, concurrent, acts);
    LoggedIsLegal(cmp, s, at);
    hide Inv;
    BoundIsLookup(cmp, Replay(s.log[..at]), s.log[at].call, s.log[at].answer);
  }

  lemma LoggedIsLegal(cmp: Comparator, s: State, j: nat)
    requires Inv(cmp, s) && j < |s.log|
    ensures Legal(cmp, Replay(s.log[..j]), s.log[j].call, s.log[j].answer)
  {
    hide MemoryOk, CallsOk, Logged, Legal;
    assert s.log[j] == s.log[j];
  }

  lemma BoundIsLookup(cmp: Comparator, m: map<Bytes, Bytes>, call: Call, answer: Answer)
    requires TotalOrder(cmp) && call.LowerBound? && Legal(cmp, m, call, answer)
    ensures answer.SeekAnswer?
    ensures ExactMatch(answer, call.key) == if call.key in m then Some(m[call.key]) else None
  {
    assert cmp(call.key, call.key) == Equal;
    if call.key in m {
      assert Wanted(cmp, call.key, false, true, call.key);
    }
  }

  /** The history respects real time: a call answered before another started comes first, whether or not that other call
      has answered yet. */
  lemma HistoryRespectsRealTime(cmp: Comparator, capacity: nat, concurrent: bool, acts: seq<Action>, more: seq<Action>,
      o1: nat, o2: nat)
    requires TotalOrder(cmp) && capacity >= 192
    requires var s := Run(cmp, capacity, concurrent, acts); o1 in s.ops && Answered(s.ops[o1]) && o2 !in s.ops
    requires var s' := Run(cmp, capacity, concurrent, acts + more); o2 in s'.ops && Effective(s'.ops[o2]).Some?
    ensures var s' := Run(cmp, capacity, concurrent, acts + more);
            o1 in s'.ops && s'.ops[o1].at < s'.ops[o2].at < |s'.log|
            && s'.log[s'.ops[o1].at].op == o1 && s'.log[s'.ops[o2].at].op == o2
  {
    hide TotalOrder, Run;
    var s, s' := Run(cmp, capacity, concurrent, acts), Run(cmp, capacity, concurrent, acts + more);
    RunsOnlyGrow(cmp, capacity, concurrent, acts, more);
    RunInv(cmp, capacity, concurrent, acts);
    RunInv(cmp, capacity, concurrent, acts + more);
    var a1 := AnsweredIsLogged(cmp, s, o1);
    LoggedCall(cmp, s', o2);
    var a2 := s'.ops[o2].at;
    NotYetLogged(cmp, s, o2);
    hide Inv;
    assert s'.log[a1] == s.log[a1];
    if a2 < |s.log| {
      SharedPrefix(s.log, s'.log, a2);
      assert false;
    }
  }

  lemma SharedPrefix(log: seq<Event>, log': seq<Event>, j: nat)
    requires log <= log' && j < |log|
    ensures log[j] == log'[j]
  {
  }

  lemma NotYetLogged(cmp: Comparator, s: State, o: nat)
    requires Inv(cmp, s) && o !in s.ops
    ensures forall j {:trigger s.log[j]} :: 0 <= j < |s.log| ==> s.log[j].op != o
  {
  }

  /** Call `o` takes effect between these two states: its answer is right for the map level 0 holds before, and the map
      it holds after is that map changed as the call says. */
  ghost predicate TakesEffect(cmp: Comparator, s: State, s': State, o: nat) {
    && o in s.ops && o in s'.ops && Effective(s'.ops[o]).Some?
    && |s.mem.linked| == MAX_HEIGHT && |s'.mem.linked| == MAX_HEIGHT
    && LevelOk(cmp, s.mem.heap, s.mem.linked[0], 0) && LevelOk(cmp, s'.mem.heap, s'.mem.linked[0], 0)
    && Legal(cmp, Contents(s.mem.heap, s.mem.linked[0]), s.ops[o].call, Effective(s'.ops[o]).value)
    && Contents(s'.mem.heap, s'.mem.linked[0]) == Effect(Contents(s.mem.heap, s.mem.linked[0]), s.ops[o].call)
  }

  /** The step that settles a call's answer is the one memory access at which the answer is exact. */
  lemma AnswersAreExactWhenGiven(cmp: Comparator, capacity: nat, concurrent: bool, acts: seq<Action>, o: nat,
      spurious: bool)
    requires TotalOrder(cmp) && capacity >= 192
    requires var s := Run(cmp, capacity, concurrent, acts);
             o in s.ops && Effective(s.ops[o]) == None
             && o in Advance(cmp, s, o, spurious).ops && Effective(Advance(cmp, s, o, spurious).ops[o]).Some?
    ensures var s := Run(cmp, capacity, concurrent, acts); TakesEffect(cmp, s, Advance(cmp, s, o, spurious), o)
  {
    RunInv(cmp, capacity, concurrent, acts);
    var s := Run(cmp, capacity, concurrent, acts);
    var s' := Advance(cmp, s, o, spurious);
    hide TotalOrder, Run, Advance, HeapOk;
    assert OpOk(cmp, s.concurrent, s.mem, s.ops[o]);
    if s.ops[o].call.Put? {
      PutTakesStep(cmp, s, o, spurious);
    } else {
      SeekTakesStep(cmp, s, o, spurious);
    }
    assert GoodStep(cmp, s, s', o);
    CommitTakesEffect(cmp, s, s', o);
  }

  lemma CommitTakesEffect(cmp: Comparator, s: State, s': State, o: nat)
    requires GoodStep(cmp, s, s', o) && Effective(s.ops[o]) == None && Effective(s'.ops[o]).Some?
    ensures TakesEffect(cmp, s, s', o)
  {
    hide OpOk, Evolves, Contents, Legal;
    LevelZero(cmp, s.mem);
    LevelZero(cmp, s'.mem);
  }

  // -------------------- racing writers --------------------

  /** A put's node is linked on all the levels of its tower if the put's turn in the history inserted the key, and
      nowhere otherwise. */
  ghost predicate AllOrNothing(s: State, op: Op)
    requires op.call.Put?
  {
    && |s.mem.linked| == MAX_HEIGHT && op.at < |s.log|
    && forall j {:trigger s.mem.linked[j]} :: 0 <= j < MAX_HEIGHT ==>
         (op.node in s.mem.linked[j] <==> op.call.key !in Replay(s.log[..op.at]) && j <= op.pick)
  }

  ghost predicate OnlyNodeOf(m: Memory, x: nat, key: Bytes) {
    && |m.linked| == MAX_HEIGHT && x in m.linked[0] && x != HEAD && x in m.heap && m.heap[x].key == key
    && forall y :: y in m.linked[0] && y != HEAD && y in m.heap && m.heap[y].key == key ==> y == x
  }

  /** However many puts race on a key, exactly one node carries it, and every answered racer's own node is that one or
      is linked nowhere. */
  lemma RacersLinkOneNode(cmp: Comparator, capacity: nat, concurrent: bool, acts: seq<Action>, o: nat) returns (x: nat)
    requires TotalOrder(cmp) && capacity >= 192
    requires var s := Run(cmp, capacity, concurrent, acts); o in s.ops && s.ops[o].call.Put? && Answered(s.ops[o])
    ensures var s := Run(cmp, capacity, concurrent, acts);
            AllOrNothing(s, s.ops[o]) && OnlyNodeOf(s.mem, x, s.ops[o].call.key)
  {
    RunInv(cmp, capacity, concurrent, acts);
    hide Inv, TotalOrder, Run;
    x := RacerInState(cmp, Run(cmp, capacity, concurrent, acts), o);
  }

  lemma RacerInState(cmp: Comparator, s: State, o: nat) returns (x: nat)
    requires Inv(cmp, s) && o in s.ops && s.ops[o].call.Put? && Answered(s.ops[o])
    ensures AllOrNothing(s, s.ops[o]) && OnlyNodeOf(s.mem, x, s.ops[o].call.key)
  {
    hide *;
    SettledCall(cmp, s, o);
    LoggedCall(cmp, s, o);
    LoggedKey(cmp, s, o);
    AnsweredAllOrNothing(cmp, s, o);
    x := TheNodeOf(cmp, s.mem, s.ops[o].call.key);
  }

  lemma LoggedCall(cmp: Comparator, s: State, o: nat)
    requires Inv(cmp, s) && o in s.ops
    ensures Logged(s.mem, s.log, o, s.ops[o])
  {
    hide MemoryOk, CallsOk, Logged;
  }

  lemma SettledCall(cmp: Comparator, s: State, o: nat)
    requires Inv(cmp, s) && o in s.ops && s.ops[o].call.Put? && Answered(s.ops[o])
    ensures Settled(s.mem, s.ops[o])
  {
    hide MemoryOk, LogOk, Settled;
    assert OpOk(cmp, s.concurrent, s.mem, s.ops[o]);
  }

  lemma LoggedKey(cmp: Comparator, s: State, o: nat)
    requires Inv(cmp, s) && o in s.ops && s.ops[o].call.Put? && Answered(s.ops[o])
    ensures MemoryOk(cmp, s.mem) && LevelOk(cmp, s.mem.heap, s.mem.linked[0], 0)
    ensures DistinctKeys(s.mem.heap, s.mem.linked[0]) && s.ops[o].call.key in Contents(s.mem.heap, s.mem.linked[0])
  {
    hide HeapOk, HeightOk, CallsOk, LegalLog, Contents;
    LoggedCall(cmp, s, o);
    KeyStays(s.log, s.ops[o].at);
    LevelZero(cmp, s.mem);
  }

  lemma TheNodeOf(cmp: Comparator, m: Memory, key: Bytes) returns (x: nat)
    requires MemoryOk(cmp, m) && DistinctKeys(m.heap, m.linked[0]) && key in Contents(m.heap, m.linked[0])
    ensures OnlyNodeOf(m, x, key)
  {
    x :| x in m.linked[0] && x != HEAD && m.heap[x].key == key;
  }

  lemma AnsweredAllOrNothing(cmp: Comparator, s: State, o: nat)
    requires MemoryOk(cmp, s.mem) && o in s.ops && s.ops[o].call.Put? && Answered(s.ops[o])
    requires Settled(s.mem, s.ops[o]) && Logged(s.mem, s.log, o, s.ops[o])
    ensures AllOrNothing(s, s.ops[o])
  {
    var op, m := s.ops[o], s.mem;
    forall j | 0 <= j < MAX_HEIGHT
      ensures op.node in m.linked[j] <==> op.call.key !in Replay(s.log[..op.at]) && j <= op.pick
    {
      assert m.linked[0] == m.linked[0];
      assert LevelOk(cmp, m.heap, m.linked[j], j) && LevelOk(cmp, m.heap, m.linked[0], 0);
    }
  }

  /** After a put in the history its key is in the map for good. */
  lemma {:induction false} KeyStays(log: seq<Event>, at: nat)
    requires at < |log| && log[at].call.Put?
    ensures log[at].call.key in Replay(log)
  {
    if at < |log| - 1 {
      KeyStays(log[..|log| - 1], at);
    }
  }

  lemma OwnerStays(cmp: Comparator, s: State, a: Action, x: nat)
    requires TotalOrder(cmp) && Inv(cmp, s) && x != 0 && x != HEAD
    requires |Do(cmp, s, a).mem.linked| == MAX_HEIGHT && x in Do(cmp, s, a).mem.linked[0]
    requires x in s.mem.linked[0] ==> exists o :: o in s.ops && s.ops[o].node == x
    ensures exists o :: o in Do(cmp, s, a).ops && Do(cmp, s, a).ops[o].node == x
  {
    hide HeapOk, LogOk, TotalOrder, OpOk;
    var s' := Do(cmp, s, a);
    if a.Start? || a.o !in s.ops || s' == s {
      var o :| o in s.ops && s.ops[o].node == x;
      assert o in s'.ops && s'.ops[o].node == x;
    } else {
      assert OpOk(cmp, s.concurrent, s.mem, s.ops[a.o]);
      if s.ops[a.o].call.Put? {
        PutTakesStep(cmp, s, a.o, a.spurious);
      } else {
        SeekTakesStep(cmp, s, a.o, a.spurious);
      }
      OwnerOfLinked(cmp, s, s', a.o, x);
    }
  }

  lemma OwnerOfLinked(cmp: Comparator, s: State, s': State, o: nat, x: nat)
    requires Moves(cmp, s, s', o) && x != 0 && x in s'.mem.linked[0]
    requires x in s.mem.linked[0] ==> exists o2 :: o2 in s.ops && s.ops[o2].node == x
    ensures exists o2 :: o2 in s'.ops && s'.ops[o2].node == x
  {
    if x in s.mem.linked[0] {
      var o2 :| o2 in s.ops && s.ops[o2].node == x;
      assert o2 in s'.ops && s'.ops[o2].node == x;
    } else {
      assert s'.ops[o].node == x;
    }
  }

  lemma {:induction false} LinkedNodesHaveOwners(cmp: Comparator, capacity: nat, concurrent: bool, acts: seq<Action>,
      x: nat)
    requires TotalOrder(cmp) && capacity >= 192
    requires |Run(cmp, capacity, concurrent, acts).mem.linked| == MAX_HEIGHT
    requires x in Run(cmp, capacity, concurrent, acts).mem.linked[0] && x != HEAD
    ensures var s := Run(cmp, capacity, concurrent, acts); exists o :: o in s.ops && s.ops[o].node == x
  {
    if acts != [] {
      var front := acts[..|acts| - 1];
      RunInv(cmp, capacity, concurrent, acts);
      RunInv(cmp, capacity, concurrent, front);
      LevelZero(cmp, Run(cmp, capacity, concurrent, acts).mem);
      if x in Run(cmp, capacity, concurrent, front).mem.linked[0] {
        LinkedNodesHaveOwners(cmp, capacity, concurrent, front, x);
      }
      OwnerStays(cmp, Run(cmp, capacity, concurrent, front), acts[|acts| - 1], x);
    }
  }

  /** Once no put is under way, every stored node is linked on all the levels of its tower and no others. */
  lemma QuietTowersAreComplete(cmp: Comparator, capacity: nat, concurrent: bool, acts: seq<Action>, x: nat, j: nat)
    requires TotalOrder(cmp) && capacity >= 192 && j < MAX_HEIGHT
    requires var s := Run(cmp, capacity, concurrent, acts);
             && (forall o {:trigger s.ops[o]} :: o in s.ops ==> !Writing(s.ops[o]))
             && |s.mem.linked| == MAX_HEIGHT && x in s.mem.linked[0] && x != HEAD
    ensures var m := Run(cmp, capacity, concurrent, acts).mem;
            x in m.heap && (x in m.linked[j] <==> j <= m.heap[x].height)
  {
    var s := Run(cmp, capacity, concurrent, acts);
    RunInv(cmp, capacity, concurrent, acts);
    LinkedNodesHaveOwners(cmp, capacity, concurrent, acts, x);
    hide Run, TotalOrder, LogOk;
    var o :| o in s.ops && s.ops[o].node == x;
    assert OpOk(cmp, s.concurrent, s.mem, s.ops[o]);
    OwnerIsComplete(cmp, s.concurrent, s.mem, s.ops[o], j);
  }

  lemma OwnerIsComplete(cmp: Comparator, concurrent: bool, m: Memory, op: Op, j: nat)
    requires MemoryOk(cmp, m) && OpOk(cmp, concurrent, m, op) && !Writing(op) && j < MAX_HEIGHT
    requires op.node in m.linked[0] && op.node != HEAD
    ensures op.node in m.heap && (op.node in m.linked[j] <==> j <= m.heap[op.node].height)
  {
    hide HeapOk, HeightOk, LevelOk, Splices, Budgets;
    LevelZero(cmp, m);
    assert 0 !in m.linked[0] by {
      assert LevelOk(cmp, m.heap, m.linked[0], 0);
      HasNoZero(cmp, m.heap, m.linked[0], 0);
    }
    assert m.linked[0] == m.linked[0] && m.linked[j] == m.linked[j];
  }

  lemma HasNoZero(cmp: Comparator, h: Heap, l: set<nat>, i: nat)
    requires LevelOk(cmp, h, l, i)
    ensures 0 !in l
  {
  }

  // -------------------- progress --------------------

  /** Progress, level by level: a put's failed splice CASes on a level never exceed the links others made there since
      the put first determined its splice. Its own link does not count. */
  lemma FailuresArePaidFor(cmp: Comparator, capacity: nat, concurrent: bool, acts: seq<Action>, o: nat, j: nat)
    requires TotalOrder(cmp) && capacity >= 192 && j < MAX_HEIGHT
    requires var s := Run(cmp, capacity, concurrent, acts);
             o in s.ops && s.ops[o].call.Put? && !s.ops[o].pc.ReadHeight? && !s.ops[o].pc.OutOfMemory?
    ensures var s := Run(cmp, capacity, concurrent, acts);
            var op, m := s.ops[o], s.mem;
            && |op.base| == |op.failed| == MAX_HEIGHT + 1 && |m.linked| == |m.links| == MAX_HEIGHT
            && op.base[j] + op.failed[j] + (if op.node in m.linked[j] then 1 else 0) <= m.links[j]
            && m.links[j] + 1 == |m.linked[j]|
  {
    hide LogOk, TotalOrder, Run;
    RunInv(cmp, capacity, concurrent, acts);
    var s := Run(cmp, capacity, concurrent, acts);
    var op := s.ops[o];
    assert OpOk(cmp, s.concurrent, s.mem, op);
    assert Budget(s.mem, op, j) by {
      assert op.failed[j] == op.failed[j];
    }
  }
}
