/** Whole runs of requests on a single-writer list, against the sorted map. */
module SequentialRuns {
  import opened ByteStrings
  import opened Comparators
  import opened Levels
  import opened NodeSizes
  import opened MapSpec
  import opened Arenas
  import opened ListShape
  import opened SkipLists
  import opened Iterators

  /** What a user asks of a list: the calls of the sequential specification, and the rest of the interface. */
  datatype Request =
    | Perform(call: Call)
    | Get(key: Bytes)
    | Count
    | Forward
    | Backward

  datatype Reply =
    | Answered(answer: Answer)
    | Value(value: Option<Bytes>)
    | Counted(count: nat)
    | Listed(entries: seq<Entry>)

  function Apply(m: map<Bytes, Bytes>, request: Request): map<Bytes, Bytes> {
    if request.Perform? then Effect(m, request.call) else m
  }

  /** The map after a run. */
  function Final(m: map<Bytes, Bytes>, requests: seq<Request>): map<Bytes, Bytes> {
    if requests == [] then m else Apply(Final(m, requests[..|requests| - 1]), requests[|requests| - 1])
  }

  /** The reply is right for the map at the time of the request. */
  ghost predicate Right(cmp: Comparator, m: map<Bytes, Bytes>, request: Request, reply: Reply) {
    match request
    case Perform(call) => reply.Answered? && Legal(cmp, m, call, reply.answer)
    case Get(key) => reply == Value(if key in m then Some(m[key]) else None)
    case Count => reply == Counted(|m|)
    case Forward => reply.Listed? && Listing(cmp, m, reply.entries)
    case Backward => reply.Listed? && Listing(cmp, m, Reversed(reply.entries))
  }

  ghost predicate AllRight(cmp: Comparator, m: map<Bytes, Bytes>, requests: seq<Request>, replies: seq<Reply>) {
    && |replies| <= |requests|
    && forall i :: 0 <= i < |replies| ==> Right(cmp, Final(m, requests[..i]), requests[i], replies[i])
  }

  /** The map and the request leave no choice of reply. */
  lemma RightIsUnique(cmp: Comparator, m: map<Bytes, Bytes>, request: Request, r1: Reply, r2: Reply)
    requires TotalOrder(cmp) && Right(cmp, m, request, r1) && Right(cmp, m, request, r2)
    ensures r1 == r2
  {
    match request
    case Perform(call) => LegalIsUnique(cmp, m, call, r1.answer, r2.answer);
    case Forward => ListingUnique(cmp, m, r1.entries, r2.entries);
    case Backward =>
      ListingUnique(cmp, m, Reversed(r1.entries), Reversed(r2.entries));
      SameReverse(r1.entries, r2.entries);
    case _ =>
  }

  lemma SameReverse(a: seq<Entry>, b: seq<Entry>)
    requires Reversed(a) == Reversed(b)
    ensures a == b
  {
    assert |a| == |Reversed(a)| == |Reversed(b)| == |b|;
    forall i | 0 <= i < |a| ensures a[i] == b[i] {
      assert Reversed(a)[|a| - 1 - i] == Reversed(b)[|a| - 1 - i];
    }
  }

  // -------------------- room in the arena --------------------

  /** Arena bytes a request may take: a put's node at the tallest draw. */
  function Cost(request: Request): nat {
    if request.Perform? && request.call.Put? then NodeBytes(request.call.key, request.call.value, MAX_HEIGHT - 1) else 0
  }

  function TotalCost(requests: seq<Request>): nat {
    if requests == [] then 0 else TotalCost(requests[..|requests| - 1]) + Cost(requests[|requests| - 1])
  }

  lemma {:induction false} PrefixCostsLess(requests: seq<Request>, i: nat)
    requires i < |requests|
    ensures TotalCost(requests[..i]) + Cost(requests[i]) <= TotalCost(requests)
  {
    var front := requests[..|requests| - 1];
    if i < |front| {
      PrefixCostsLess(front, i);
      assert front[..i] == requests[..i];
    }
  }

  /** Lengths fit the node header. */
  predicate Fits(request: Request) {
    request.Perform? && request.call.Put? ==> |request.call.key| < U32_SIZE && |request.call.value| < U32_SIZE
  }

  lemma TallestCostsMost(key: Bytes, value: Bytes, height: nat)
    requires height < MAX_HEIGHT
    ensures NodeBytes(key, value, height) <= NodeBytes(key, value, MAX_HEIGHT - 1)
  {
  }

  // -------------------- runs --------------------

  /** One call, with the height drawn for it should it be a put; None is the arena's panic. */
  method Direct(list: SkipList, call: Call, height: nat) returns (r: Option<Answer>)
    requires list.Valid() && height < MAX_HEIGHT && Fits(Perform(call))
    modifies list`height, list.arena, list.arena.buf
    ensures list.Valid()
    ensures r == None ==> list.Contents() == old(list.Contents())
    ensures r == None ==> old(list.arena.top) + Cost(Perform(call)) > list.arena.capacity
    ensures r != None ==> Legal(list.cmp, old(list.Contents()), call, r.value)
    ensures r != None ==> list.Contents() == Effect(old(list.Contents()), call)
    ensures old(list.arena.top) <= list.arena.top <= old(list.arena.top) + Cost(Perform(call))
  {
    hide Represents, Settled, Stored, TotalOrder, Nearest, Greatest;
    match call {
      case Put(key, value) =>
        var outcome := list.Put(key, value, height);
        TallestCostsMost(key, value, height);
        return match outcome case Panicked => None case Done(rejected) => Some(PutAnswer(rejected));
      case LowerBound(key) =>
        var entry := list.LowerBound(key);
        return Some(SeekAnswer(entry));
      case FindNear(key, less, allowEqual) =>
        var it := new IterRef(list);
        it.cursor := list.FindNear(key, less, allowEqual);
        var entry := Under(it);
        return Some(SeekAnswer(entry));
      case FindLast =>
        var it := new IterRef(list);
        it.SeekToLast();
        var entry := Under(it);
        return Some(SeekAnswer(entry));
    }
  }

  /** One request. */
  method Serve(list: SkipList, request: Request, height: nat) returns (r: Option<Reply>)
    requires list.Valid() && height < MAX_HEIGHT && Fits(request)
    modifies list`height, list.arena, list.arena.buf
    ensures list.Valid()
    ensures r == None ==> list.Contents() == old(list.Contents())
    ensures r == None ==> old(list.arena.top) + Cost(request) > list.arena.capacity
    ensures r != None ==> Right(list.cmp, old(list.Contents()), request, r.value)
    ensures r != None ==> list.Contents() == Apply(old(list.Contents()), request)
    ensures old(list.arena.top) <= list.arena.top <= old(list.arena.top) + Cost(request)
  {
    hide Represents, Settled, Stored, TotalOrder, Legal, Listing;
    match request {
      case Perform(call) =>
        var answer := Direct(list, call, height);
        return match answer case None => None case Some(a) => Some(Answered(a));
      case Get(key) =>
        var value := list.Get(key);
        return Some(Value(value));
      case Count =>
        var count := list.Len();
        return Some(Counted(count));
      case Forward =>
        var entries := CollectForward(list);
        return Some(Listed(entries));
      case Backward =>
        var entries := CollectBackward(list);
        return Some(Listed(entries));
    }
  }

  method Under(it: IterRef) returns (r: Option<Entry>)
    requires it.Valid()
    ensures r == it.Here()
  {
    hide Represents, Settled, Stored, TotalOrder;
    var key := it.Key();
    var value := it.Value();
    return if key == None then None else Some((key.value, value.value));
  }

  /** A run on a list, up to its end or the arena's panic. The heights are an arbitrary sequence of draws; when the
      arena has room for every put at the tallest draw, no draw can make the run panic. */
  method RunCalls(list: SkipList, requests: seq<Request>, heights: seq<nat>) returns (replies: seq<Reply>)
    requires list.Valid() && |heights| == |requests| && forall i :: 0 <= i < |heights| ==> heights[i] < MAX_HEIGHT
    requires forall i :: 0 <= i < |requests| ==> Fits(requests[i])
    modifies list`height, list.arena, list.arena.buf
    ensures list.Valid() && AllRight(list.cmp, old(list.Contents()), requests, replies)
    ensures list.Contents() == Final(old(list.Contents()), requests[..|replies|])
    ensures old(list.arena.top) + TotalCost(requests) <= list.arena.capacity ==> |replies| == |requests|
  {
    hide Represents, Settled, Stored, TotalOrder, Right, Apply, Cost;
    replies := [];
    while |replies| < |requests|
      invariant list.Valid() && AllRight(list.cmp, old(list.Contents()), requests, replies)
      invariant list.Contents() == Final(old(list.Contents()), requests[..|replies|])
      invariant list.arena.top <= old(list.arena.top) + TotalCost(requests[..|replies|])
      decreases |requests| - |replies|
    {
      var i := |replies|;
      var reply := Serve(list, requests[i], heights[i]);
      PrefixCostsLess(requests, i);
      if reply == None {
        return;
      }
      assert requests[..i + 1][..i] == requests[..i];
      replies := replies + [reply.value];
    }
  }

  /** Right replies to the same requests are the same replies. */
  lemma RightRunsAgree(cmp: Comparator, m: map<Bytes, Bytes>, requests: seq<Request>, r1: seq<Reply>, r2: seq<Reply>)
    requires TotalOrder(cmp) && AllRight(cmp, m, requests, r1) && AllRight(cmp, m, requests, r2)
    ensures forall i :: 0 <= i < |r1| && i < |r2| ==> r1[i] == r2[i]
  {
    forall i | 0 <= i < |r1| && i < |r2| ensures r1[i] == r2[i] {
      RightIsUnique(cmp, Final(m, requests[..i]), requests[i], r1[i], r2[i]);
    }
  }

  /** Random heights are invisible: two lists with equal contents that serve the same requests under different draws
      reply alike, as far as both get, and with room for the run in both arenas they end with equal contents. */
  method HeightsDoNotMatter(a: SkipList, b: SkipList, requests: seq<Request>, heightsA: seq<nat>, heightsB: seq<nat>)
      returns (ra: seq<Reply>, rb: seq<Reply>)
    requires a.Valid() && b.Valid() && a.cmp == b.cmp && a.Contents() == b.Contents()
    requires {a as object, a.arena, a.arena.buf} !! {b as object, b.arena, b.arena.buf}
    requires |heightsA| == |heightsB| == |requests|
    requires forall i :: 0 <= i < |requests| ==>
             heightsA[i] < MAX_HEIGHT && heightsB[i] < MAX_HEIGHT && Fits(requests[i])
    modifies a`height, a.arena, a.arena.buf, b`height, b.arena, b.arena.buf
    ensures a.Valid() && b.Valid()
    ensures forall i :: 0 <= i < |ra| && i < |rb| ==> ra[i] == rb[i]
    ensures old(a.arena.top) + TotalCost(requests) <= a.arena.capacity
            && old(b.arena.top) + TotalCost(requests) <= b.arena.capacity
            ==> ra == rb && |ra| == |requests| && a.Contents() == b.Contents()
  {
    hide Represents, Settled, Stored, TotalOrder, AllRight, Apply;
    ra := RunCalls(a, requests, heightsA);
    rb := RunCalls(b, requests, heightsB);
    RightRunsAgree(a.cmp, old(a.Contents()), requests, ra, rb);
  }
}
