/** A rank for calls in flight: a call's own steps lower it, and other calls' steps do not raise it. */
module ProtocolRanks {
  import opened ByteStrings
  import opened Comparators
  import opened Levels
  import opened Sums
  import opened Protocol
  import opened ProtocolInvariant
  import opened ProtocolSteps
  import opened ProtocolSeekSteps

  predicate Finished(pc: Pc) {
    pc.Done? || pc.OutOfMemory?
  }

  // -------------------- a rank for calls --------------------

  function Left(n: nat, k: nat): nat {
    if k <= n then n - k else 0
  }

  function Times(k: nat, c: nat): nat {
    if k == 0 then 0 else c + Times(k - 1, c)
  }

  lemma {:induction false} TimesMonotone(k: nat, k': nat, c: nat)
    requires k <= k'
    ensures Times(k, c) <= Times(k', c)
  {
    if k < k' {
      TimesMonotone(k, k' - 1, c);
    }
  }

  lemma TimesStep(k: nat, c: nat)
    ensures Times(k + 1, c) == c + Times(k, c)
  {
  }

  /** The nodes of a level up to and including `x`. Other calls can only add to them. */
  ghost function Behind(cmp: Comparator, m: Memory, level: nat, x: nat): set<nat> {
    if level < |m.linked| && x in m.heap
    then set y | y in m.linked[level] && y in m.heap && (y == x || Before(cmp, m.heap, y, x))
    else {}
  }

  /** How many nodes a search standing at `x` can still pass when a level never holds more than `n`. */
  ghost function Ahead(cmp: Comparator, n: nat, m: Memory, level: nat, x: nat): nat {
    Left(n, |Behind(cmp, m, level, x)|)
  }

  /** Steps still due to splice failures on a level; each failure costs one more search. */
  function Retries(n: nat, failed: nat): nat {
    Times(Left(n, failed), n + 4)
  }

  function PerLevel(n: nat): nat {
    Retries(n, 0) + 4
  }

  function Upper(n: nat, pick: nat, level: nat): nat {
    Times(Left(pick, level), PerLevel(n))
  }

  function LinkRank(n: nat, pick: nat): nat {
    Upper(n, pick, 0) + Retries(n, 0) + 4
  }

  function AllocRank(n: nat, pick: nat): nat {
    LinkRank(n, pick) + 2 * MAX_HEIGHT + 4
  }

  function DescentRank(n: nat, pick: nat): nat {
    AllocRank(n, pick) + 2 * n + 3
  }

  function PutRank(n: nat, pick: nat): nat {
    DescentRank(n, pick) + Times(MAX_HEIGHT, n + 1) + 1
  }

  /** An upper bound on the steps a call still takes in a run with fewer than `n` calls. */
  ghost function Rank(cmp: Comparator, n: nat, m: Memory, op: Op): nat {
    match op.pc
    case ReadHeight => if op.call.Put? then PutRank(n, op.pick) else 3 + Times(MAX_HEIGHT, n + 1)
    case Search(level, x) => DescentRank(n, op.pick) + Times(level, n + 1) + Ahead(cmp, n, m, level, x) + 1
    case AllocLoad => AllocRank(n, op.pick) + 2 * Left(n, |m.heap|) + 2
    case AllocCas(current) => AllocRank(n, op.pick) + 2 * Left(n, |m.heap|) + if current == m.top then 1 else 3
    case Raise(current) => LinkRank(n, op.pick) + 2 + 2 * Left(MAX_HEIGHT, m.height)
                            + if current == m.height then 1 else 2
    case StoreHeight => LinkRank(n, op.pick) + 3
    case BackOwn => LinkRank(n, op.pick) + 2
    case BackNext => LinkRank(n, op.pick) + 1
    case StoreNext(level) => Upper(n, op.pick, level) + Retries(n, At(op.failed, level)) + 4
    case SwingPrev(level) => Upper(n, op.pick, level) + Retries(n, At(op.failed, level)) + 3
    case Research(level, x) => Upper(n, op.pick, level) + Retries(n, At(op.failed, level)) + 5
                                + Ahead(cmp, n, m, level, x)
    case Walk(level, x) => 3 + Times(level, n + 1) + Ahead(cmp, n, m, level, x)
    case StepOver(_) => 2
    case Respond(_) => 1
    case _ => 0
  }

  function Limit(n: nat): nat {
    PutRank(n, MAX_HEIGHT - 1)
  }

  lemma {:induction false} TimesIs(k: nat, c: nat)
    ensures Times(k, c) == k * c
  {
    if k > 0 {
      TimesIs(k - 1, c);
      assert k * c == (k - 1) * c + c;
    }
  }

  /** The bound is quadratic in the number of calls. */
  lemma LimitIsQuadratic(n: nat)
    ensures Limit(n) == 20 * n * n + 102 * n + 148
  {
    TimesIs(n, n + 4);
    TimesIs(MAX_HEIGHT - 1, PerLevel(n));
    TimesIs(MAX_HEIGHT, n + 1);
    assert n * (n + 4) == n * n + 4 * n;
  }

  // -------------------- other calls do not raise the rank --------------------

  lemma BehindGrows(cmp: Comparator, m: Memory, m': Memory, mine: nat, level: nat, x: nat)
    requires Evolves(m, m', mine) && level < MAX_HEIGHT
    ensures |Behind(cmp, m, level, x)| <= |Behind(cmp, m', level, x)|
  {
    var b, b' := Behind(cmp, m, level, x), Behind(cmp, m', level, x);
    forall y | y in b ensures y in b' {
      assert y in m.linked[level] && y in m.heap && x in m.heap;
    }
    SubsetIsSmaller(b, b');
  }

  /** How shared memory grows under others' steps. */
  ghost predicate Grows(m: Memory, m': Memory, n: nat) {
    && m.height <= m'.height < MAX_HEIGHT && |m.heap| <= |m'.heap| <= n
    && (m'.top != m.top ==> |m.heap| < |m'.heap|)
  }

  lemma RankStable(cmp: Comparator, n: nat, m: Memory, m': Memory, mine: nat, op: Op)
    requires Evolves(m, m', mine) && Grows(m, m', n)
    requires op.pc.Search? || op.pc.Research? || op.pc.Walk? ==> op.pc.level < MAX_HEIGHT
    ensures Rank(cmp, n, m', op) <= Rank(cmp, n, m, op)
  {
    hide LinkRank, AllocRank, DescentRank, PutRank, Upper, Retries, Times, Evolves;
    match op.pc
    case Search(level, x) => BehindGrows(cmp, m, m', mine, level, x);
    case Research(level, x) => BehindGrows(cmp, m, m', mine, level, x);
    case Walk(level, x) => BehindGrows(cmp, m, m', mine, level, x);
    case _ =>
  }

  // -------------------- searching --------------------

  lemma LevelFits(cmp: Comparator, m: Memory, n: nat, level: nat)
    requires MemoryOk(cmp, m) && |m.heap| <= n && level < MAX_HEIGHT
    ensures |m.linked[level]| <= n
  {
    assert LevelOk(cmp, m.heap, m.linked[level], level);
    SubsetIsSmaller(m.linked[level], m.heap.Keys);
    assert |m.heap.Keys| == |m.heap|;
  }

  /** Wherever a search stands on a level, it has at least one node behind it. */
  lemma AheadBound(cmp: Comparator, n: nat, m: Memory, level: nat, x: nat)
    requires level < |m.linked| && x in m.linked[level] && x in m.heap && n > 0
    ensures Ahead(cmp, n, m, level, x) < n
  {
    SubsetIsSmaller({x}, Behind(cmp, m, level, x));
  }

  /** Moving on leaves one node fewer ahead. */
  lemma AheadShrinks(cmp: Comparator, n: nat, m: Memory, level: nat, x: nat)
    requires TotalOrder(cmp) && MemoryOk(cmp, m) && |m.heap| <= n && level < MAX_HEIGHT && x in m.linked[level]
    requires HasLevel(m.heap, x, level) && Next(m.heap, x, level) != 0
    ensures Ahead(cmp, n, m, level, Next(m.heap, x, level)) < Ahead(cmp, n, m, level, x)
  {
    var y := Next(m.heap, x, level);
    assert LevelOk(cmp, m.heap, m.linked[level], level);
    LevelFits(cmp, m, n, level);
    hide HeapOk, HeightOk, LevelsOk;
    var b, b' := Behind(cmp, m, level, x), Behind(cmp, m, level, y);
    assert y in b' && y !in b && b <= b';
    SubsetIsSmaller(b + {y}, b');
    SubsetIsSmaller(b', m.linked[level]);
  }

  lemma RetryCosts(n: nat, failed: nat)
    requires failed < n
    ensures Retries(n, failed) == Retries(n, failed + 1) + n + 4
  {
  }

  lemma RetriesAtMost(n: nat, failed: nat)
    ensures Retries(n, failed) <= Retries(n, 0)
  {
    TimesMonotone(Left(n, failed), Left(n, 0), n + 4);
  }

  lemma UpperCosts(n: nat, pick: nat, level: nat)
    requires level < pick
    ensures Upper(n, pick, level) == Upper(n, pick, level + 1) + PerLevel(n)
  {
  }

  // -------------------- a call's own steps lower its rank --------------------

  /** Room for the nodes there are. */
  ghost predicate Fits(cmp: Comparator, n: nat, s: State, o: nat) {
    MayStep(cmp, s, o) && 0 < n && |s.mem.heap| <= n
  }

  lemma GroundFacts(cmp: Comparator, n: nat, s: State, o: nat)
    requires Fits(cmp, n, s, o)
    ensures TotalOrder(cmp) && MemoryOk(cmp, s.mem) && s.mem.height < MAX_HEIGHT && MayStep(cmp, s, o)
    ensures o in s.ops && 0 < n && |s.mem.heap| <= n
  {
    hide TotalOrder, HeapOk, LevelsOk, OpOk;
  }

  lemma EnterRank(cmp: Comparator, n: nat, m: Memory, op: Op, concurrent: bool)
    ensures Rank(cmp, n, m, EnterLevel(op, concurrent, 0)) <= LinkRank(n, op.pick) + 2
  {
    RetriesAtMost(n, At(op.failed, 0));
    hide Retries, Upper;
  }

  lemma EnterUpperRank(cmp: Comparator, n: nat, m: Memory, op: Op, concurrent: bool, level: nat)
    requires level <= op.pick
    ensures Rank(cmp, n, m, EnterLevel(op, concurrent, level + 1))
            < Upper(n, op.pick, level) + Retries(n, At(op.failed, level)) + 3
  {
    RetriesAtMost(n, At(op.failed, level + 1));
    if level < op.pick {
      UpperCosts(n, op.pick, level);
    }
    hide Retries, Upper;
  }

  lemma HeadOn(cmp: Comparator, m: Memory, level: nat)
    requires MemoryOk(cmp, m) && level < MAX_HEIGHT
    ensures m.height < MAX_HEIGHT && level < |m.linked| && HEAD in m.linked[level] && HEAD in m.heap
  {
    assert LevelOk(cmp, m.heap, m.linked[level], level);
  }

  lemma ReadHeightShape(s: State, o: nat)
    requires o in s.ops
    ensures var s', op := StepReadHeight(s, o), s.ops[o];
            && s'.mem == s.mem && o in s'.ops && s'.ops[o].pick == op.pick
            && s'.ops[o].pc == if op.call.Put? then Search(s.mem.height, HEAD) else Walk(s.mem.height, HEAD)
  {
  }

  lemma ReadHeightRank(cmp: Comparator, n: nat, s: State, o: nat)
    requires Fits(cmp, n, s, o) && s.ops[o].pc == ReadHeight
    ensures var s' := StepReadHeight(s, o);
            o in s'.ops && Rank(cmp, n, s'.mem, s'.ops[o]) < Rank(cmp, n, s.mem, s.ops[o])
  {
    hide Fits, MayStep, MemoryOk, TotalOrder, DescentRank, Ahead, StepReadHeight, Times;
    GroundFacts(cmp, n, s, o);
    HeadOn(cmp, s.mem, s.mem.height);
    AheadBound(cmp, n, s.mem, s.mem.height, HEAD);
    TimesStep(s.mem.height, n + 1);
    TimesMonotone(s.mem.height + 1, MAX_HEIGHT, n + 1);
    ReadHeightShape(s, o);
  }

  lemma SearchShape(cmp: Comparator, s: State, o: nat, level: nat, x: nat)
    requires o in s.ops && s.ops[o].call.Put?
    ensures var s' := StepSearch(cmp, s, o, level, x);
            && s'.mem == s.mem && o in s'.ops && s'.ops[o].pick == s.ops[o].pick
            && match Probe(cmp, s.mem.heap, s.ops[o].call.key, x, level)
               case Bad => true
               case Onward(y) => s'.ops[o].pc == Search(level, y)
               case Found(p, q) =>
                 if p == q then s'.ops[o].pc.Respond? || s'.ops[o].pc.Fault?
                 else s'.ops[o].pc == if level == 0 then AllocLoad else Search(level - 1, OrHead(p))
  {
  }

  /** One load of a search: it moves on along the level, or ends there. */
  lemma ProbeRank(cmp: Comparator, n: nat, m: Memory, level: nat, x: nat, key: Bytes)
    requires TotalOrder(cmp) && MemoryOk(cmp, m) && |m.heap| <= n && 0 < n && level < MAX_HEIGHT
             && Standing(cmp, m, level, x, key)
    ensures match Probe(cmp, m.heap, key, x, level)
            case Bad => false
            case Onward(y) => Ahead(cmp, n, m, level, y) < Ahead(cmp, n, m, level, x)
            case Found(p, q) => p != q ==> p != 0 && (level > 0 ==> Ahead(cmp, n, m, level - 1, p) < n)
  {
    ProbeFinds(cmp, m, level, x, key);
    hide TotalOrder, MemoryOk, Ahead;
    match Probe(cmp, m.heap, key, x, level)
    case Onward(_) => AheadShrinks(cmp, n, m, level, x);
    case Found(p, q) =>
      if p != q && level > 0 {
        WalkStays(cmp, m, level, p);
        AheadBound(cmp, n, m, level - 1, p);
      }
  }

  lemma SearchStands(cmp: Comparator, s: State, o: nat, level: nat, x: nat)
    requires MayStep(cmp, s, o) && s.ops[o].pc == Search(level, x) && s.ops[o].call.Put?
    ensures level < MAX_HEIGHT && Standing(cmp, s.mem, level, x, s.ops[o].call.key)
  {
    hide MemoryOk, TotalOrder, Splices;
  }

  lemma DescentFalls(cmp: Comparator, n: nat, m: Memory, op: Op, op': Op, level: nat, x: nat)
    requires op.pc == Search(level, x) && op'.pick == op.pick
    requires match op'.pc
             case Search(level', y) =>
               || (level' == level && Ahead(cmp, n, m, level, y) < Ahead(cmp, n, m, level, x))
               || (level' + 1 == level && Ahead(cmp, n, m, level', y) < n)
             case AllocLoad => true
             case Respond(_) => true
             case Fault => true
             case _ => false
    ensures Rank(cmp, n, m, op') < Rank(cmp, n, m, op)
  {
    hide Ahead, AllocRank, Times;
    if level > 0 {
      TimesStep(level - 1, n + 1);
    }
  }

  lemma SearchRank(cmp: Comparator, n: nat, s: State, o: nat, level: nat, x: nat)
    requires Fits(cmp, n, s, o) && s.ops[o].pc == Search(level, x) && s.ops[o].call.Put?
    ensures var s' := StepSearch(cmp, s, o, level, x);
            o in s'.ops && Rank(cmp, n, s'.mem, s'.ops[o]) < Rank(cmp, n, s.mem, s.ops[o])
  {
    hide Fits, MayStep, MemoryOk, TotalOrder, Ahead, StepSearch, Probe, Standing, Rank;
    GroundFacts(cmp, n, s, o);
    SearchStands(cmp, s, o, level, x);
    ProbeRank(cmp, n, s.mem, level, x, s.ops[o].call.key);
    SearchShape(cmp, s, o, level, x);
    DescentFalls(cmp, n, s.mem, s.ops[o], StepSearch(cmp, s, o, level, x).ops[o], level, x);
  }

  // -------------------- allocating --------------------

  lemma AllocLoadRank(cmp: Comparator, n: nat, s: State, o: nat)
    requires Fits(cmp, n, s, o) && s.ops[o].pc == AllocLoad && s.ops[o].call.Put?
    ensures var s' := StepAllocLoad(s, o);
            o in s'.ops && Rank(cmp, n, s'.mem, s'.ops[o]) < Rank(cmp, n, s.mem, s.ops[o])
  {
    hide OpOk, MemoryOk, TotalOrder, AllocRank;
  }

  lemma AllocCasRank(cmp: Comparator, n: nat, s: State, o: nat, current: nat)
    requires Fits(cmp, n, s, o) && s.ops[o].pc == AllocCas(current) && s.ops[o].call.Put?
    ensures var s' := StepAllocCas(s, o, current);
            o in s'.ops && Rank(cmp, n, s'.mem, s'.ops[o]) < Rank(cmp, n, s.mem, s.ops[o])
  {
    hide OpOk, MemoryOk, TotalOrder, LinkRank;
    if s.mem.top == current {
      EnterRank(cmp, n, StepAllocCas(s, o, current).mem, s.ops[o].(node := OrHead(current)), s.concurrent);
    }
    hide EnterLevel;
  }

  lemma RaiseRank(cmp: Comparator, n: nat, s: State, o: nat, current: nat)
    requires Fits(cmp, n, s, o) && s.ops[o].pc == Raise(current) && s.ops[o].call.Put?
    ensures var s' := StepRaise(s, o, current, false);
            o in s'.ops && Rank(cmp, n, s'.mem, s'.ops[o]) < Rank(cmp, n, s.mem, s.ops[o])
  {
    hide OpOk, MemoryOk, TotalOrder, LinkRank;
    EnterRank(cmp, n, s.mem, s.ops[o], s.concurrent);
    EnterRank(cmp, n, RaiseTo(s.mem, s.ops[o].pick), s.ops[o], s.concurrent);
    hide EnterLevel;
  }

  lemma StoreHeightRank(cmp: Comparator, n: nat, s: State, o: nat)
    requires Fits(cmp, n, s, o) && s.ops[o].pc == StoreHeight && s.ops[o].call.Put?
    ensures var s' := StepStoreHeight(s, o);
            o in s'.ops && Rank(cmp, n, s'.mem, s'.ops[o]) < Rank(cmp, n, s.mem, s.ops[o])
  {
    hide OpOk, MemoryOk, TotalOrder, LinkRank;
    EnterRank(cmp, n, RaiseTo(s.mem, s.ops[o].pick), s.ops[o], s.concurrent);
    hide EnterLevel;
  }

  // -------------------- linking --------------------

  lemma BackRank(cmp: Comparator, n: nat, s: State, o: nat)
    requires Fits(cmp, n, s, o) && (s.ops[o].pc == BackOwn || s.ops[o].pc == BackNext)
    ensures var s' := if s.ops[o].pc == BackOwn then StepBackOwn(s, o) else StepBackNext(s, o);
            o in s'.ops && Rank(cmp, n, s'.mem, s'.ops[o]) < Rank(cmp, n, s.mem, s.ops[o])
  {
    hide OpOk, MemoryOk, TotalOrder, Upper, Retries;
    RetriesAtMost(n, At(s.ops[o].failed, 0));
  }

  lemma StoreNextRank(cmp: Comparator, n: nat, s: State, o: nat, level: nat)
    requires Fits(cmp, n, s, o) && s.ops[o].pc == StoreNext(level)
    ensures var s' := StepStoreNext(s, o, level);
            o in s'.ops && Rank(cmp, n, s'.mem, s'.ops[o]) < Rank(cmp, n, s.mem, s.ops[o])
  {
    hide OpOk, MemoryOk, TotalOrder, Upper, Retries;
  }

  /** A splice that fails has an allowance left: failures are paid for by links. */
  lemma SwingKnows(cmp: Comparator, n: nat, s: State, o: nat, level: nat)
    requires Fits(cmp, n, s, o) && s.ops[o].pc == SwingPrev(level) && s.ops[o].call.Put?
    ensures level <= s.ops[o].pick && level < |s.ops[o].failed| && level < MAX_HEIGHT && At(s.ops[o].failed, level) < n
    ensures var p := At(s.ops[o].prev, level);
            level < |s.mem.linked| && p in s.mem.linked[level] && p in s.mem.heap
  {
    var op, m := s.ops[o], s.mem;
    LevelFits(cmp, m, n, level);
    hide HeapOk, LevelsOk, TotalOrder;
    assert SpliceOk(cmp, s.concurrent, m, op, level);
    assert op.failed[level] <= m.links[level];
    assert m.links[level] + 1 == |m.linked[level]|;
  }

  lemma SwingShapes(s: State, o: nat, level: nat, p: nat)
    requires o in s.ops && p == At(s.ops[o].prev, level) && level < |s.ops[o].failed| && level <= s.ops[o].pick
    ensures var s' := StepSwingPrev(s, o, level);
            o in s'.ops && (s'.ops[o].pc == Research(level, p) ==>
              s'.mem == s.mem && s'.ops[o] == s.ops[o].(failed := s.ops[o].failed[level := s.ops[o].failed[level] + 1],
                pc := Research(level, p)))
  {
  }

  lemma RetryFalls(cmp: Comparator, n: nat, m: Memory, op: Op, op': Op, level: nat, p: nat)
    requires op.pc == SwingPrev(level) && op'.pc == Research(level, p) && op'.pick == op.pick
    requires At(op'.failed, level) == At(op.failed, level) + 1 <= n && Ahead(cmp, n, m, level, p) < n
    ensures Rank(cmp, n, m, op') < Rank(cmp, n, m, op)
  {
    hide Ahead, Upper, Retries;
    RetryCosts(n, At(op.failed, level));
  }

  lemma SwingRank(cmp: Comparator, n: nat, s: State, o: nat, level: nat)
    requires Fits(cmp, n, s, o) && s.ops[o].pc == SwingPrev(level) && s.ops[o].call.Put?
    ensures var s' := StepSwingPrev(s, o, level);
            o in s'.ops && Rank(cmp, n, s'.mem, s'.ops[o]) < Rank(cmp, n, s.mem, s.ops[o])
  {
    hide Fits, MayStep, MemoryOk, TotalOrder, Ahead, StepSwingPrev, Rank;
    GroundFacts(cmp, n, s, o);
    SwingKnows(cmp, n, s, o, level);
    var p := At(s.ops[o].prev, level);
    SwingShapes(s, o, level, p);
    if StepSwingPrev(s, o, level).ops[o].pc == Research(level, p) {
      AheadBound(cmp, n, s.mem, level, p);
      RetryFalls(cmp, n, s.mem, s.ops[o], StepSwingPrev(s, o, level).ops[o], level, p);
    } else {
      SwungRank(cmp, n, s, o, level);
    }
  }

  lemma SwungRank(cmp: Comparator, n: nat, s: State, o: nat, level: nat)
    requires o in s.ops && s.ops[o].pc == SwingPrev(level) && level <= s.ops[o].pick
    requires StepSwingPrev(s, o, level).ops[o].pc != Research(level, At(s.ops[o].prev, level))
    ensures var s' := StepSwingPrev(s, o, level);
            o in s'.ops && Rank(cmp, n, s'.mem, s'.ops[o]) < Rank(cmp, n, s.mem, s.ops[o])
  {
    hide Upper, Retries, Ahead;
    var m' := StepSwingPrev(s, o, level).mem;
    EnterUpperRank(cmp, n, m', s.ops[o], s.concurrent, level);
    EnterIgnoresAt(cmp, n, m', s.ops[o], s.concurrent, level, |s.log|);
    hide EnterLevel;
  }

  lemma EnterIgnoresAt(cmp: Comparator, n: nat, m: Memory, op: Op, concurrent: bool, level: nat, at: nat)
    ensures var op' := EnterLevel(op, concurrent, level + 1); Rank(cmp, n, m, op'.(at := at)) == Rank(cmp, n, m, op')
  {
  }

  lemma ResearchStands(cmp: Comparator, s: State, o: nat, level: nat, x: nat)
    requires MayStep(cmp, s, o) && s.ops[o].pc == Research(level, x) && s.ops[o].call.Put?
    ensures level < MAX_HEIGHT && level <= s.ops[o].pick && Standing(cmp, s.mem, level, x, s.ops[o].call.key)
    ensures s.concurrent && Budgets(s.mem, s.ops[o]) && Linking(cmp, true, s.mem, s.ops[o], level, level + 1)
  {
    hide MemoryOk, TotalOrder, Splices;
  }

  lemma ResearchShape(cmp: Comparator, s: State, o: nat, level: nat, x: nat)
    requires o in s.ops && s.ops[o].call.Put? && s.concurrent && level < |s.ops[o].prev| && level <= s.ops[o].pick
    ensures var s' := StepResearch(cmp, s, o, level, x);
            && s'.mem == s.mem && o in s'.ops && s'.ops[o].pick == s.ops[o].pick && s'.ops[o].failed == s.ops[o].failed
            && match Probe(cmp, s.mem.heap, s.ops[o].call.key, x, level)
               case Bad => true
               case Onward(y) => s'.ops[o].pc == Research(level, y)
               case Found(p, q) =>
                 if p == q then s'.ops[o].pc.Respond? || s'.ops[o].pc.Fault?
                 else p != 0 ==> s'.ops[o].pc == StoreNext(level)
  {
  }

  lemma ResearchFalls(cmp: Comparator, n: nat, m: Memory, op: Op, op': Op, level: nat, x: nat)
    requires op.pc == Research(level, x) && op'.pick == op.pick && op'.failed == op.failed
    requires match op'.pc
             case Research(level', y) => level' == level && Ahead(cmp, n, m, level, y) < Ahead(cmp, n, m, level, x)
             case StoreNext(level') => level' == level
             case Respond(_) => true
             case Fault => true
             case _ => false
    ensures Rank(cmp, n, m, op') < Rank(cmp, n, m, op)
  {
    hide Ahead, Upper, Retries;
  }

  lemma ResearchRank(cmp: Comparator, n: nat, s: State, o: nat, level: nat, x: nat)
    requires Fits(cmp, n, s, o) && s.ops[o].pc == Research(level, x) && s.ops[o].call.Put?
    ensures var s' := StepResearch(cmp, s, o, level, x);
            o in s'.ops && Rank(cmp, n, s'.mem, s'.ops[o]) < Rank(cmp, n, s.mem, s.ops[o])
  {
    hide Fits, MayStep, MemoryOk, TotalOrder, Ahead, StepResearch, Probe, Standing, Rank, Budget, Splices, Owns;
    GroundFacts(cmp, n, s, o);
    ResearchStands(cmp, s, o, level, x);
    ProbeRank(cmp, n, s.mem, level, x, s.ops[o].call.key);
    ResearchShape(cmp, s, o, level, x);
    ResearchFalls(cmp, n, s.mem, s.ops[o], StepResearch(cmp, s, o, level, x).ops[o], level, x);
  }

  // -------------------- seeks --------------------

  lemma WalkKnows(cmp: Comparator, s: State, o: nat, level: nat, x: nat)
    requires MayStep(cmp, s, o) && s.ops[o].pc == Walk(level, x) && !s.ops[o].call.Put?
    ensures level < MAX_HEIGHT && level < |s.mem.linked| && x in s.mem.linked[level] && HasLevel(s.mem.heap, x, level)
  {
    hide MemoryOk, TotalOrder;
  }

  lemma WalkShape(cmp: Comparator, s: State, o: nat, level: nat, x: nat)
    requires o in s.ops && HasLevel(s.mem.heap, x, level)
    ensures var s', y := StepWalk(cmp, s, o, level, x), Next(s.mem.heap, x, level);
            && s'.mem == s.mem && o in s'.ops
            && var pc := s'.ops[o].pc;
               || pc.Fault? || pc.Respond? || pc.StepOver?
               || (y != 0 && pc == Walk(level, y))
               || (level > 0 && pc == Walk(level - 1, x))
  {
  }

  lemma WalkFalls(cmp: Comparator, n: nat, m: Memory, op: Op, op': Op, level: nat, x: nat)
    requires op.pc == Walk(level, x)
    requires match op'.pc
             case Walk(level', y) =>
               || (level' == level && Ahead(cmp, n, m, level, y) < Ahead(cmp, n, m, level, x))
               || (level' + 1 == level && Ahead(cmp, n, m, level', y) < n)
             case StepOver(_) => true
             case Respond(_) => true
             case Fault => true
             case _ => false
    ensures Rank(cmp, n, m, op') < Rank(cmp, n, m, op)
  {
    hide Ahead, Times;
    if level > 0 {
      TimesStep(level - 1, n + 1);
    }
  }

  lemma WalkRank(cmp: Comparator, n: nat, s: State, o: nat, level: nat, x: nat)
    requires Fits(cmp, n, s, o) && s.ops[o].pc == Walk(level, x) && !s.ops[o].call.Put?
    ensures var s' := StepWalk(cmp, s, o, level, x);
            o in s'.ops && Rank(cmp, n, s'.mem, s'.ops[o]) < Rank(cmp, n, s.mem, s.ops[o])
  {
    hide Fits, MayStep, MemoryOk, TotalOrder, Ahead, StepWalk, Rank;
    GroundFacts(cmp, n, s, o);
    WalkKnows(cmp, s, o, level, x);
    WalkStays(cmp, s.mem, level, x);
    if level > 0 {
      AheadBound(cmp, n, s.mem, level - 1, x);
    }
    if Next(s.mem.heap, x, level) != 0 {
      AheadShrinks(cmp, n, s.mem, level, x);
    }
    WalkShape(cmp, s, o, level, x);
    WalkFalls(cmp, n, s.mem, s.ops[o], StepWalk(cmp, s, o, level, x).ops[o], level, x);
  }

  // -------------------- every step --------------------

  lemma PutStepRank(cmp: Comparator, n: nat, s: State, o: nat)
    requires Fits(cmp, n, s, o) && s.ops[o].call.Put? && !Finished(s.ops[o].pc)
    ensures var s' := Advance(cmp, s, o, false);
            o in s'.ops && Rank(cmp, n, s'.mem, s'.ops[o]) < Rank(cmp, n, s.mem, s.ops[o])
  {
    hide MemoryOk, TotalOrder, Rank, Budgets, Splices, Standing, Owns, Linking, Settled;
    match s.ops[o].pc
    case ReadHeight => ReadHeightRank(cmp, n, s, o);
    case Search(level, x) => SearchRank(cmp, n, s, o, level, x);
    case AllocLoad => AllocLoadRank(cmp, n, s, o);
    case AllocCas(current) => AllocCasRank(cmp, n, s, o, current);
    case Raise(current) => RaiseRank(cmp, n, s, o, current);
    case StoreHeight => StoreHeightRank(cmp, n, s, o);
    case BackOwn => BackRank(cmp, n, s, o);
    case BackNext => BackRank(cmp, n, s, o);
    case StoreNext(level) => StoreNextRank(cmp, n, s, o, level);
    case SwingPrev(level) => SwingRank(cmp, n, s, o, level);
    case Research(level, x) => ResearchRank(cmp, n, s, o, level, x);
    case Respond(_) => RespondRank(cmp, n, s, o);
  }

  lemma RespondRank(cmp: Comparator, n: nat, s: State, o: nat)
    requires o in s.ops && s.ops[o].pc.Respond?
    ensures var s' := Advance(cmp, s, o, false);
            o in s'.ops && Rank(cmp, n, s'.mem, s'.ops[o]) < Rank(cmp, n, s.mem, s.ops[o])
  {
  }

  lemma StepOverRank(cmp: Comparator, n: nat, s: State, o: nat, x: nat)
    requires o in s.ops && s.ops[o].pc == StepOver(x)
    ensures var s' := StepStepOver(s, o, x);
            o in s'.ops && Rank(cmp, n, s'.mem, s'.ops[o]) < Rank(cmp, n, s.mem, s.ops[o])
  {
  }

  lemma SeekStepRank(cmp: Comparator, n: nat, s: State, o: nat)
    requires Fits(cmp, n, s, o) && !s.ops[o].call.Put? && !Finished(s.ops[o].pc)
    ensures var s' := Advance(cmp, s, o, false);
            o in s'.ops && Rank(cmp, n, s'.mem, s'.ops[o]) < Rank(cmp, n, s.mem, s.ops[o])
  {
    hide MemoryOk, TotalOrder, Rank;
    match s.ops[o].pc
    case ReadHeight => ReadHeightRank(cmp, n, s, o);
    case Walk(level, x) => WalkRank(cmp, n, s, o, level, x);
    case StepOver(x) => StepOverRank(cmp, n, s, o, x);
    case Respond(_) => RespondRank(cmp, n, s, o);
  }

  /** A spurious failure of the weak compare-and-swap at worst changes nothing. */
  lemma SpuriousRank(cmp: Comparator, n: nat, s: State, o: nat)
    requires o in s.ops && s.ops[o].pc.Raise? && s.mem.height < MAX_HEIGHT
    ensures var s' := StepRaise(s, o, s.ops[o].pc.current, true);
            o in s'.ops && Rank(cmp, n, s'.mem, s'.ops[o]) <= Rank(cmp, n, s.mem, s.ops[o])
  {
    EnterRank(cmp, n, s.mem, s.ops[o], s.concurrent);
    hide LinkRank, EnterLevel;
  }

  /** The weak compare-and-swap on the list height fails although the values match. */
  predicate FailsSpuriously(s: State, o: nat, spurious: bool) {
    spurious && o in s.ops && s.ops[o].pc.Raise? && s.mem.height == s.ops[o].pc.current
  }

  /** Nowhere else does the flag make a difference. */
  lemma SpuriousOnlyThere(cmp: Comparator, s: State, o: nat)
    requires o in s.ops && !FailsSpuriously(s, o, true)
    ensures Advance(cmp, s, o, true) == Advance(cmp, s, o, false)
  {
    hide StepReadHeight, StepSearch, StepAllocLoad, StepAllocCas, StepStoreHeight, StepBackOwn, StepBackNext;
    hide StepStoreNext, StepSwingPrev, StepResearch, StepLateSearch, StepWalk, StepStepOver;
  }

  lemma OwnRank(cmp: Comparator, n: nat, s: State, o: nat, spurious: bool)
    requires Fits(cmp, n, s, o)
    ensures var s' := Advance(cmp, s, o, spurious);
            && o in s'.ops && Rank(cmp, n, s'.mem, s'.ops[o]) <= Rank(cmp, n, s.mem, s.ops[o])
            && (!FailsSpuriously(s, o, spurious) && !Finished(s.ops[o].pc) ==>
                  Rank(cmp, n, s'.mem, s'.ops[o]) < Rank(cmp, n, s.mem, s.ops[o]))
  {
    hide Fits, MayStep, MemoryOk, TotalOrder, Rank, StepRaise;
    GroundFacts(cmp, n, s, o);
    if FailsSpuriously(s, o, spurious) {
      SpuriousRank(cmp, n, s, o);
    } else {
      if spurious {
        SpuriousOnlyThere(cmp, s, o);
      }
      if Finished(s.ops[o].pc) {
      } else if s.ops[o].call.Put? {
        PutStepRank(cmp, n, s, o);
      } else {
        SeekStepRank(cmp, n, s, o);
      }
    }
  }
}
