/** The skiplist as a transition system: any number of calls in flight, one atomic load, store or
    compare-and-swap per step, in every interleaving.

    A step also runs the thread-local computation that follows its memory access: comparing the
    key of a loaded node is local, because keys never change. Dereferencing an offset that is not
    a node, indexing past a tower, and a failing assertion all lead to `Fault`. */
module Protocol {
  import opened ByteStrings
  import opened Comparators
  import opened Levels
  import opened NodeSizes
  import opened MapSpec
  import opened Seeks

  /** Where a call stands: the memory access it will do next. */
  datatype Pc =
    | ReadHeight                            // load the list height
    | Search(level: nat, before: nat)       // put, first descent: load `before`'s link
    | AllocLoad                             // load the arena's bump pointer
    | AllocCas(current: nat)                // swing the bump pointer
    | Raise(current: nat)                   // weak CAS on the list height
    | StoreHeight                           // single writer: plain store of the list height
    | BackOwn                               // single writer: store the new node's back pointer
    | BackNext                              // single writer: store the successor's back pointer
    | StoreNext(level: nat)                 // store the new node's own link
    | SwingPrev(level: nat)                 // CAS (single writer: store) the predecessor's link
    | Research(level: nat, before: nat)     // after a failed CAS: search the level again
    | LateSearch(level: nat, before: nat)   // search of a level whose predecessor was never set
    | Walk(level: nat, cursor: nat)         // seeks: load `cursor`'s link
    | StepOver(node: nat)                   // find_near: load the link of the node with the equal key
    | Respond(answer: Answer)
    | Done(answer: Answer)
    | OutOfMemory                           // the arena's panic
    | Fault

  /** A call in flight with its local variables.

      `seen`, `base`, `failed` and `at` are auxiliary: they are never tested. `seen[i]` and
      `base[i]` are the number of links on level `i` when `prev[i]` and `next[i]` were last and
      first determined, `failed[i]` counts failed splice CASes, `at` is the call's log position. */
  datatype Op = Op(
    call: Call, pick: nat, pc: Pc,
    listHeight: nat, prev: seq<nat>, next: seq<nat>, node: nat,
    seen: seq<nat>, base: seq<nat>, failed: seq<nat>, at: nat)

  /** Shared memory. `linked` (the nodes on each level) and `links` (how many were added) are auxiliary. */
  datatype Memory = Memory(
    capacity: nat, top: nat, heap: Heap, height: nat,
    linked: seq<set<nat>>, links: seq<nat>)

  /** A call taking effect. */
  datatype Event = Event(op: nat, call: Call, answer: Answer)

  /** `log` is auxiliary: the calls that have taken effect, in order. */
  datatype State = State(concurrent: bool, mem: Memory, ops: map<nat, Op>, log: seq<Event>)

  // -------------------- memory effects --------------------

  function RaiseTo(m: Memory, height: nat): Memory {
    m.(height := height)
  }

  function Bump(m: Memory, offset: nat, node: Node): Memory {
    m.(top := offset + NodeBytes(node.key, node.value, node.height), heap := m.heap[offset := node])
  }

  function SetOwnNext(m: Memory, x: nat, i: nat, target: nat): Memory
    requires HasLevel(m.heap, x, i)
  {
    m.(heap := SetNext(m.heap, x, i, target))
  }

  function SetBack(m: Memory, x: nat, target: nat): Memory
    requires x in m.heap
  {
    m.(heap := m.heap[x := m.heap[x].(prev := target)])
  }

  function Link(m: Memory, p: nat, i: nat, n: nat): Memory
    requires HasLevel(m.heap, p, i) && i < |m.linked| && i < |m.links|
  {
    m.(heap := SetNext(m.heap, p, i, n),
       linked := m.linked[i := m.linked[i] + {n}],
       links := m.links[i := m.links[i] + 1])
  }

  // -------------------- local computation --------------------

  function At(q: seq<nat>, i: nat): nat {
    if i < |q| then q[i] else 0
  }

  function Put21(q: seq<nat>, i: nat, v: nat): seq<nat> {
    if i < |q| then q[i := v] else q
  }

  /** One turn of `find_splice_for_level`. */
  datatype Probed = Bad | Onward(node: nat) | Found(p: nat, n: nat)

  function Probe(cmp: Comparator, h: Heap, key: Bytes, before: nat, level: nat): Probed {
    if !HasLevel(h, before, level) then Bad
    else
      var n := Next(h, before, level);
      if n == 0 then Found(before, 0)
      else if n !in h then Bad
      else match cmp(h[n].key, key)
        case Less => Onward(n)
        case Greater => Found(before, n)
        case Equal => Found(n, n)
  }

  function Splice(op: Op, m: Memory, level: nat, p: nat, n: nat): Op {
    op.(prev := Put21(op.prev, level, p), next := Put21(op.next, level, n),
        seen := Put21(op.seen, level, At(m.links, level)))
  }

  /** The start of the linking loop's body for one level. */
  function EnterLevel(op: Op, concurrent: bool, level: nat): Op {
    if level > op.pick then op.(pc := Respond(PutAnswer(None)))
    else if concurrent then
      if At(op.prev, level) == 0 then op.(prev := Put21(op.prev, level, HEAD), pc := LateSearch(level, HEAD))
      else op.(pc := StoreNext(level))
    else
      op.(prev := Put21(op.prev, level, OrHead(At(op.prev, level))),
          pc := if level == 0 then BackOwn else StoreNext(level))
  }

  function Duplicate(op: Op, h: Heap, existing: nat): Answer
    requires op.call.Put? && existing in h
  {
    PutAnswer(if h[existing].value != op.call.value then Some((op.call.key, op.call.value)) else None)
  }

  // -------------------- steps --------------------

  function Now(s: State, o: nat, op: Op): State {
    s.(ops := s.ops[o := op])
  }

  function Goto(s: State, o: nat, pc: Pc): State
    requires o in s.ops
  {
    Now(s, o, s.ops[o].(pc := pc))
  }

  /** The call takes effect with this answer and goes on as `op`. */
  function Commit(s: State, o: nat, op: Op, answer: Answer): State {
    s.(ops := s.ops[o := op.(at := |s.log|)], log := s.log + [Event(o, op.call, answer)])
  }

  function Finish(s: State, o: nat, answer: Answer): State
    requires o in s.ops
  {
    Commit(s, o, s.ops[o].(pc := Respond(answer)), answer)
  }

  function StepReadHeight(s: State, o: nat): State
    requires o in s.ops
  {
    var op, height := s.ops[o], s.mem.height;
    if op.call.Put? then
      var count := seq(MAX_HEIGHT + 1, j requires 0 <= j => if j > height then At(s.mem.links, j) else 0);
      Now(s, o, op.(
        listHeight := height,
        prev := seq(MAX_HEIGHT + 1, j => if j > height then HEAD else 0),
        next := seq(MAX_HEIGHT + 1, j => 0),
        seen := count, base := count, failed := seq(MAX_HEIGHT + 1, j => 0),
        pc := Search(height, HEAD)))
    else
      Now(s, o, op.(pc := Walk(height, HEAD)))
  }

  function StepSearch(cmp: Comparator, s: State, o: nat, level: nat, before: nat): State
    requires o in s.ops && s.ops[o].call.Put?
  {
    var op := s.ops[o];
    match Probe(cmp, s.mem.heap, op.call.key, before, level)
    case Bad => Goto(s, o, Fault)
    case Onward(n) => Goto(s, o, Search(level, n))
    case Found(p, n) =>
      if p == n then
        if p !in s.mem.heap then Goto(s, o, Fault)
        else Finish(s, o, Duplicate(op, s.mem.heap, p))
      else
        var op' := Splice(op, s.mem, level, p, n).(base := Put21(op.base, level, At(s.mem.links, level)));
        Now(s, o, op'.(pc := if level == 0 then AllocLoad else Search(level - 1, OrHead(p))))
  }

  function StepAllocLoad(s: State, o: nat): State
    requires o in s.ops && s.ops[o].call.Put?
  {
    var op := s.ops[o];
    if OrHead(s.mem.top) + NodeBytes(op.call.key, op.call.value, op.pick) > s.mem.capacity
    then Goto(s, o, OutOfMemory)
    else Goto(s, o, AllocCas(s.mem.top))
  }

  /** The winner of the bump also writes its node: nobody else can reach those bytes yet. */
  function StepAllocCas(s: State, o: nat, current: nat): State
    requires o in s.ops && s.ops[o].call.Put?
  {
    var op := s.ops[o];
    if s.mem.top != current then Goto(s, o, AllocLoad)
    else
      var offset := OrHead(current);
      var node := FreshNode(op.call.key, op.call.value, op.pick);
      var op' := op.(node := offset);
      var s' := s.(mem := Bump(s.mem, offset, node));
      if op.pick > op.listHeight
      then Now(s', o, op'.(pc := if s.concurrent then Raise(op.listHeight) else StoreHeight))
      else Now(s', o, EnterLevel(op', s.concurrent, 0))
  }

  function StepRaise(s: State, o: nat, current: nat, spurious: bool): State
    requires o in s.ops
  {
    var op := s.ops[o];
    if s.mem.height == current && !spurious then
      Now(s.(mem := RaiseTo(s.mem, op.pick)), o, EnterLevel(op, s.concurrent, 0))
    else if s.mem.height < op.pick then Goto(s, o, Raise(s.mem.height))
    else Now(s, o, EnterLevel(op, s.concurrent, 0))
  }

  function StepStoreHeight(s: State, o: nat): State
    requires o in s.ops
  {
    Now(s.(mem := RaiseTo(s.mem, s.ops[o].pick)), o, EnterLevel(s.ops[o], s.concurrent, 0))
  }

  function StepBackOwn(s: State, o: nat): State
    requires o in s.ops
  {
    var op := s.ops[o];
    if op.node !in s.mem.heap then Goto(s, o, Fault)
    else
      Goto(s.(mem := SetBack(s.mem, op.node, At(op.prev, 0))), o,
           if At(op.next, 0) != 0 then BackNext else StoreNext(0))
  }

  function StepBackNext(s: State, o: nat): State
    requires o in s.ops
  {
    var op := s.ops[o];
    if At(op.next, 0) !in s.mem.heap then Goto(s, o, Fault)
    else Goto(s.(mem := SetBack(s.mem, At(op.next, 0), op.node)), o, StoreNext(0))
  }

  function StepStoreNext(s: State, o: nat, level: nat): State
    requires o in s.ops
  {
    var op := s.ops[o];
    if !HasLevel(s.mem.heap, op.node, level) then Goto(s, o, Fault)
    else Goto(s.(mem := SetOwnNext(s.mem, op.node, level, At(op.next, level))), o, SwingPrev(level))
  }

  function StepSwingPrev(s: State, o: nat, level: nat): State
    requires o in s.ops
  {
    var op := s.ops[o];
    var p := At(op.prev, level);
    if !HasLevel(s.mem.heap, p, level) || level >= |s.mem.linked| || level >= |s.mem.links| then Goto(s, o, Fault)
    else if !s.concurrent || Next(s.mem.heap, p, level) == At(op.next, level) then
      var s' := s.(mem := Link(s.mem, p, level, op.node));
      var op' := EnterLevel(op, s.concurrent, level + 1);
      if level == 0 then Commit(s', o, op', PutAnswer(None)) else Now(s', o, op')
    else
      Now(s, o, op.(failed := Put21(op.failed, level, At(op.failed, level) + 1), pc := Research(level, p)))
  }

  function StepResearch(cmp: Comparator, s: State, o: nat, level: nat, before: nat): State
    requires o in s.ops && s.ops[o].call.Put?
  {
    var op := s.ops[o];
    match Probe(cmp, s.mem.heap, op.call.key, before, level)
    case Bad => Goto(s, o, Fault)
    case Onward(n) => Goto(s, o, Research(level, n))
    case Found(p, n) =>
      if p == n then
        if level != 0 || p !in s.mem.heap then Goto(s, o, Fault)   // the assertion on the level
        else Finish(s, o, Duplicate(op, s.mem.heap, p))
      else Now(s, o, EnterLevel(Splice(op, s.mem, level, p, n), s.concurrent, level))
  }

  /** No duplicate check on this path. */
  function StepLateSearch(cmp: Comparator, s: State, o: nat, level: nat, before: nat): State
    requires o in s.ops && s.ops[o].call.Put?
  {
    var op := s.ops[o];
    match Probe(cmp, s.mem.heap, op.call.key, before, level)
    case Bad => Goto(s, o, Fault)
    case Onward(n) => Goto(s, o, LateSearch(level, n))
    case Found(p, n) => Now(s, o, Splice(op, s.mem, level, p, n).(pc := StoreNext(level)))
  }

  function StepWalk(cmp: Comparator, s: State, o: nat, level: nat, cursor: nat): State
    requires o in s.ops
  {
    var op, h := s.ops[o], s.mem.heap;
    if !HasLevel(h, cursor, level) then Goto(s, o, Fault)
    else
      var n := Next(h, cursor, level);
      if n != 0 && n !in h then Goto(s, o, Fault)
      else
        var here, there := SeekAnswer(EntryAt(h, cursor)), SeekAnswer(EntryAt(h, n));
        match op.call
        case FindLast =>
          if n != 0 then Goto(s, o, Walk(level, n))
          else if level > 0 then Goto(s, o, Walk(level - 1, cursor))
          else Finish(s, o, here)
        case LowerBound(key) =>
          if n != 0 && cmp(h[n].key, key) == Less then Goto(s, o, Walk(level, n))
          else if n != 0 && cmp(h[n].key, key) == Equal then Finish(s, o, there)
          else if level > 0 then Goto(s, o, Walk(level - 1, cursor))
          else Finish(s, o, if n == 0 then SeekAnswer(None) else there)
        case FindNear(key, less, allowEqual) =>
          if n == 0 then
            if level > 0 then Goto(s, o, Walk(level - 1, cursor))
            else Finish(s, o, if !less then SeekAnswer(None) else here)
          else if cmp(h[n].key, key) == Less then Goto(s, o, Walk(level, n))
          else if cmp(h[n].key, key) == Equal && allowEqual then Finish(s, o, there)
          else if cmp(h[n].key, key) == Equal && !less then Goto(s, o, StepOver(n))
          else if level > 0 then Goto(s, o, Walk(level - 1, cursor))
          else Finish(s, o, if !less then there else here)
        case Put(_, _) => Goto(s, o, Fault)
  }

  function StepStepOver(s: State, o: nat, node: nat): State
    requires o in s.ops
  {
    var h := s.mem.heap;
    if !HasLevel(h, node, 0) then Goto(s, o, Fault)
    else
      var n := Next(h, node, 0);
      Finish(s, o, SeekAnswer(if n == 0 then None else EntryAt(h, n)))
  }

  /** One step of call `o`. `spurious` lets a weak CAS fail although the values match. */
  function Advance(cmp: Comparator, s: State, o: nat, spurious: bool): State {
    if o !in s.ops then s
    else
      var op := s.ops[o];
      match op.pc
      case ReadHeight => StepReadHeight(s, o)
      case Search(level, before) => if op.call.Put? then StepSearch(cmp, s, o, level, before) else Goto(s, o, Fault)
      case AllocLoad => if op.call.Put? then StepAllocLoad(s, o) else Goto(s, o, Fault)
      case AllocCas(current) => if op.call.Put? then StepAllocCas(s, o, current) else Goto(s, o, Fault)
      case Raise(current) => StepRaise(s, o, current, spurious)
      case StoreHeight => StepStoreHeight(s, o)
      case BackOwn => StepBackOwn(s, o)
      case BackNext => StepBackNext(s, o)
      case StoreNext(level) => StepStoreNext(s, o, level)
      case SwingPrev(level) => StepSwingPrev(s, o, level)
      case Research(level, before) => if op.call.Put? then StepResearch(cmp, s, o, level, before) else Goto(s, o, Fault)
      case LateSearch(level, before) => if op.call.Put? then StepLateSearch(cmp, s, o, level, before)
        else Goto(s, o, Fault)
      case Walk(level, cursor) => StepWalk(cmp, s, o, level, cursor)
      case StepOver(node) => StepStepOver(s, o, node)
      case Respond(answer) => Goto(s, o, Done(answer))
      case Done(_) => s
      case OutOfMemory => s
      case Fault => s
  }

  // -------------------- runs --------------------

  /** A put that may still touch shared memory. */
  predicate Writing(op: Op) {
    op.call.Put? && !op.pc.Respond? && !op.pc.Done? && !op.pc.OutOfMemory? && !op.pc.Fault?
  }

  datatype Action = Start(o: nat, call: Call, pick: nat) | Go(o: nat, spurious: bool)

  /** A list built without `allow_concurrent_write` has one writer at a time; seeks are always welcome. */
  ghost predicate MayStart(s: State, a: Action)
    requires a.Start?
  {
    && a.o !in s.ops && a.pick < MAX_HEIGHT
    && (!s.concurrent && a.call.Put? ==> forall o :: o in s.ops ==> !Writing(s.ops[o]))
  }

  ghost function Do(cmp: Comparator, s: State, a: Action): State {
    match a
    case Start(o, call, pick) =>
      if MayStart(s, a) then Now(s, o, Op(call, pick, ReadHeight, 0, [], [], 0, [], [], [], 0)) else s
    case Go(o, spurious) => Advance(cmp, s, o, spurious)
  }

  /** A fresh list: the head sentinel is the arena's first allocation. */
  ghost function Fresh(capacity: nat, concurrent: bool): State {
    State(concurrent,
          Memory(capacity, HEAD + NodeBytes([], [], MAX_HEIGHT - 1), map[HEAD := HeadNode()], 0,
                 seq(MAX_HEIGHT, _ => {HEAD}), seq(MAX_HEIGHT, _ => 0)),
          map[], [])
  }

  /** The state after a run: any schedule of starts and steps. */
  ghost function Run(cmp: Comparator, capacity: nat, concurrent: bool, acts: seq<Action>): State {
    if acts == [] then Fresh(capacity, concurrent)
    else Do(cmp, Run(cmp, capacity, concurrent, acts[..|acts| - 1]), acts[|acts| - 1])
  }
}
