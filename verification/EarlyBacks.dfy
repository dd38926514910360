/** A run that reaches the middle of a put: a stored node whose back pointer leads to a node not yet stored. */
module EarlyBacks {
  import opened ByteStrings
  import opened Comparators
  import opened Levels
  import opened NodeSizes
  import opened MapSpec
  import opened Protocol
  import opened ProtocolBacks

  lemma Then(cmp: Comparator, capacity: nat, concurrent: bool, acts: seq<Action>, a: Action)
    ensures Run(cmp, capacity, concurrent, acts + [a]) == Do(cmp, Run(cmp, capacity, concurrent, acts), a)
  {
    hide Do;
    assert (acts + [a])[..|acts|] == acts;
  }

  /** A single-writer list of height 0 whose first node, if any, lies behind `key`. */
  ghost predicate FrontOpen(cmp: Comparator, s: State, key: Bytes) {
    && !s.concurrent && s.mem.height == 0 && HEAD <= s.mem.top && 0 < |s.mem.linked| && 0 < |s.mem.links|
    && HasLevel(s.mem.heap, HEAD, 0) && s.mem.top !in s.mem.heap
    && var n := Next(s.mem.heap, HEAD, 0);
       n != 0 ==> n in s.mem.heap && n != HEAD && cmp(s.mem.heap[n].key, key) == Greater
  }

  /** Call `o` is a put of height 0 that has found its place at the front. */
  ghost predicate AtFront(s: State, o: nat, key: Bytes, pc: Pc, node: nat, next: nat) {
    && o in s.ops && s.ops[o].call == Put(key, []) && s.ops[o].pick == 0 && s.ops[o].listHeight == 0
    && s.ops[o].pc == pc && s.ops[o].node == node
    && 0 < |s.ops[o].prev| && 0 < |s.ops[o].next| && s.ops[o].prev[0] == HEAD && s.ops[o].next[0] == next
  }

  ghost predicate OthersStay(s: State, s': State, o: nat) {
    s'.concurrent == s.concurrent && s'.ops.Keys == s.ops.Keys + {o} && forall p :: p in s.ops && p != o ==>
      s'.ops[p] == s.ops[p]
  }

  lemma StartsAndReads(cmp: Comparator, s: State, o: nat, key: Bytes) returns (s': State)
    requires FrontOpen(cmp, s, key) && o !in s.ops && forall p :: p in s.ops ==> !Writing(s.ops[p])
    ensures s' == Do(cmp, Do(cmp, s, Start(o, Put(key, []), 0)), Go(o, false))
    ensures s'.mem == s.mem && OthersStay(s, s', o)
    ensures o in s'.ops && s'.ops[o].call == Put(key, []) && s'.ops[o].pick == 0 && s'.ops[o].listHeight == 0
    ensures s'.ops[o].pc == Search(0, HEAD) && s'.ops[o].node == 0 && 0 < |s'.ops[o].prev| && 0 < |s'.ops[o].next|
  {
    s' := StepReadHeight(Do(cmp, s, Start(o, Put(key, []), 0)), o);
  }

  lemma Searches(cmp: Comparator, s: State, o: nat, key: Bytes) returns (s': State)
    requires FrontOpen(cmp, s, key)
    requires o in s.ops && s.ops[o].call == Put(key, []) && s.ops[o].pick == 0 && s.ops[o].listHeight == 0
    requires s.ops[o].pc == Search(0, HEAD) && s.ops[o].node == 0 && 0 < |s.ops[o].prev| && 0 < |s.ops[o].next|
    ensures s' == Do(cmp, s, Go(o, false)) && s'.mem == s.mem && OthersStay(s, s', o)
    ensures AtFront(s', o, key, AllocLoad, 0, Next(s.mem.heap, HEAD, 0))
  {
    s' := StepSearch(cmp, s, o, 0, HEAD);
  }

  lemma Allocates(cmp: Comparator, s: State, o: nat, key: Bytes, next: nat) returns (s': State)
    requires !s.concurrent && HEAD <= s.mem.top && AtFront(s, o, key, AllocLoad, 0, next)
    requires s.mem.top + NodeBytes(key, [], 0) <= s.mem.capacity
    ensures s' == Do(cmp, Do(cmp, s, Go(o, false)), Go(o, false)) && OthersStay(s, s', o)
    ensures s'.mem == Bump(s.mem, s.mem.top, FreshNode(key, [], 0)) && AtFront(s', o, key, BackOwn, s.mem.top, next)
  {
    hide NodeBytes;
    var s1 := StepAllocLoad(s, o);
    assert AtFront(s1, o, key, AllocCas(s.mem.top), 0, next);
    s' := StepAllocCas(s1, o, s.mem.top);
  }

  lemma StoresBack(cmp: Comparator, s: State, o: nat, key: Bytes, node: nat, next: nat) returns (s': State)
    requires AtFront(s, o, key, BackOwn, node, next) && node in s.mem.heap
    ensures s' == Do(cmp, s, Go(o, false)) && OthersStay(s, s', o)
    ensures s'.mem == SetBack(s.mem, node, HEAD)
    ensures AtFront(s', o, key, if next != 0 then BackNext else StoreNext(0), node, next)
  {
    s' := StepBackOwn(s, o);
  }

  lemma StoresNextBack(cmp: Comparator, s: State, o: nat, key: Bytes, node: nat, next: nat) returns (s': State)
    requires AtFront(s, o, key, BackNext, node, next) && next in s.mem.heap
    ensures s' == Do(cmp, s, Go(o, false)) && OthersStay(s, s', o)
    ensures s'.mem == SetBack(s.mem, next, node) && AtFront(s', o, key, StoreNext(0), node, next)
  {
    s' := StepBackNext(s, o);
  }

  lemma LinksAndAnswers(cmp: Comparator, s: State, o: nat, key: Bytes, node: nat, next: nat) returns (s': State)
    requires !s.concurrent && AtFront(s, o, key, StoreNext(0), node, next) && 0 < |s.mem.linked| && 0 < |s.mem.links|
    requires HasLevel(s.mem.heap, node, 0) && HasLevel(s.mem.heap, HEAD, 0) && node != HEAD
    ensures s' == Do(cmp, Do(cmp, Do(cmp, s, Go(o, false)), Go(o, false)), Go(o, false)) && OthersStay(s, s', o)
    ensures s'.mem == Link(SetOwnNext(s.mem, node, 0, next), HEAD, 0, node) && o in s'.ops && s'.ops[o].pc.Done?
  {
    var s1 := StepStoreNext(s, o, 0);
    assert AtFront(s1, o, key, SwingPrev(0), node, next);
    var s2 := StepSwingPrev(s1, o, 0);
    assert s2.ops[o].pc == Respond(PutAnswer(None));
    s' := Goto(s2, o, Done(PutAnswer(None)));
  }

  // -------------------- the run --------------------

  /** Extending a run by actions that lead from its last state to `s'`. */
  lemma Then2(cmp: Comparator, capacity: nat, acts: seq<Action>, a: Action, b: Action)
    ensures Run(cmp, capacity, false, acts + [a, b]) == Do(cmp, Do(cmp, Run(cmp, capacity, false, acts), a), b)
  {
    hide Do, Run;
    Then(cmp, capacity, false, acts, a);
    Then(cmp, capacity, false, acts + [a], b);
    assert acts + [a] + [b] == acts + [a, b];
  }

  lemma Then3(cmp: Comparator, capacity: nat, acts: seq<Action>, a: Action, b: Action, c: Action)
    ensures Run(cmp, capacity, false, acts + [a, b, c])
         == Do(cmp, Do(cmp, Do(cmp, Run(cmp, capacity, false, acts), a), b), c)
  {
    hide Do, Run;
    Then2(cmp, capacity, acts, a, b);
    Then(cmp, capacity, false, acts + [a, b], c);
    assert acts + [a, b] + [c] == acts + [a, b, c];
  }

  /** A put runs up to the store of its own back pointer. */
  lemma RunsToBackOwn(cmp: Comparator, capacity: nat, acts: seq<Action>, o: nat, key: Bytes)
      returns (acts': seq<Action>, s': State)
    requires var s := Run(cmp, capacity, false, acts);
             && FrontOpen(cmp, s, key) && o !in s.ops && (forall p :: p in s.ops ==> !Writing(s.ops[p]))
             && s.mem.top + NodeBytes(key, [], 0) <= s.mem.capacity
    ensures s' == Run(cmp, capacity, false, acts') && OthersStay(Run(cmp, capacity, false, acts), s', o)
    ensures var m := Run(cmp, capacity, false, acts).mem;
            && s'.mem == SetBack(Bump(m, m.top, FreshNode(key, [], 0)), m.top, HEAD)
            && var next := Next(m.heap, HEAD, 0);
               AtFront(s', o, key, if next != 0 then BackNext else StoreNext(0), m.top, next)
  {
    hide Run, Do, AtFront, NodeBytes, Bump, SetBack, Writing;
    var s, go := Run(cmp, capacity, false, acts), Go(o, false);
    var next := Next(s.mem.heap, HEAD, 0);
    var s1 := StartsAndReads(cmp, s, o, key);
    Then2(cmp, capacity, acts, Start(o, Put(key, []), 0), go);
    var acts1 := acts + [Start(o, Put(key, []), 0), go];
    var s2 := Searches(cmp, s1, o, key);
    Then(cmp, capacity, false, acts1, go);
    var s3 := Allocates(cmp, s2, o, key, next);
    Then2(cmp, capacity, acts1 + [go], go, go);
    var acts3 := acts1 + [go] + [go, go];
    BumpedNode(s.mem, key);
    s' := StoresBack(cmp, s3, o, key, s.mem.top, next);
    Then(cmp, capacity, false, acts3, go);
    acts' := acts3 + [go];
  }

  lemma BumpedNode(m: Memory, key: Bytes)
    ensures m.top in Bump(m, m.top, FreshNode(key, [], 0)).heap
  {
  }

  /** The memory after the first put of a run. */
  ghost predicate OneNode(s: State, key: Bytes, x: nat) {
    && !s.concurrent && s.mem.height == 0 && 0 < |s.mem.linked| && 0 < |s.mem.links|
    && HEAD < x < s.mem.top && s.mem.linked[0] == {HEAD, x} && s.mem.heap.Keys == {HEAD, x}
    && HasLevel(s.mem.heap, HEAD, 0) && Next(s.mem.heap, HEAD, 0) == x && s.mem.heap[x].key == key
    && s.ops.Keys == {0} && s.ops[0].pc.Done?
  }

  lemma FirstPut(cmp: Comparator, capacity: nat, key: Bytes) returns (acts: seq<Action>, s: State)
    requires 192 + NodeBytes(key, [], 0) <= capacity
    ensures s == Run(cmp, capacity, false, acts) && OneNode(s, key, 192)
    ensures s.mem.capacity == capacity && s.mem.top == 192 + NodeBytes(key, [], 0)
  {
    var empty := Fresh(capacity, false);
    FreshIs(capacity);
    assert Run(cmp, capacity, false, []) == empty;
    hide Run, Do, Fresh, NodeBytes;
    var acts1, s1 := RunsToBackOwn(cmp, capacity, [], 0, key);
    var go := Go(0, false);
    s := LinksAndAnswers(cmp, s1, 0, key, 192, 0);
    Then3(cmp, capacity, acts1, go, go, go);
    acts := acts1 + [go, go, go];
    SizeIsPositive(key);
  }

  lemma SizeIsPositive(key: Bytes)
    ensures NodeBytes(key, [], 0) > 0
  {
  }

  lemma FreshIs(capacity: nat)
    ensures var s := Fresh(capacity, false);
            && !s.concurrent && s.ops == map[] && s.mem.height == 0 && s.mem.top == 192 && s.mem.capacity == capacity
            && s.mem.heap.Keys == {HEAD} && HasLevel(s.mem.heap, HEAD, 0) && Next(s.mem.heap, HEAD, 0) == 0
            && 0 < |s.mem.linked| && 0 < |s.mem.links| && s.mem.linked[0] == {HEAD}
  {
  }

  /** For any order, any two keys and any arena with room for them: store the larger key, then run a put of the smaller
      one until it is about to link its node. The stored node's back pointer leads to a node that is not stored. */
  lemma EarlyBackIsReached(cmp: Comparator, capacity: nat, small: Bytes, large: Bytes)
      returns (acts: seq<Action>, x: nat)
    requires TotalOrder(cmp) && cmp(small, large) == Less
    requires 192 + NodeBytes(large, [], 0) + NodeBytes(small, [], 0) <= capacity
    ensures var s := Run(cmp, capacity, false, acts);
            && 0 < |s.mem.linked| && x in s.mem.linked[0] && x != HEAD && x in s.mem.heap && s.mem.heap[x].key == large
            && EarlyBack(s, x) && s.mem.heap[x].prev !in s.mem.linked[0]
            && 1 in s.ops && s.ops[1].pc == StoreNext(0)
  {
    var acts1, s1 := FirstPut(cmp, capacity, large);
    hide Run, Do, NodeBytes, OthersStay;
    x := 192;
    var acts2, s2 := RunsToBackOwn(cmp, capacity, acts1, 1, small);
    var s3 := StoresNextBack(cmp, s2, 1, small, s1.mem.top, x);
    Then(cmp, capacity, false, acts2, Go(1, false));
    acts := acts2 + [Go(1, false)];
    assert s3.ops[1] == s3.ops[1];
  }
}
