/** What every step of the protocol keeps. */
module ProtocolInvariant {
  import opened ByteStrings
  import opened Comparators
  import opened Levels
  import opened NodeSizes
  import opened Chains
  import opened MapSpec
  import opened Seeks
  import opened Protocol

  // -------------------- shared memory --------------------

  /** Nodes lie in the arena, each within the part handed out, with a tower of height + 1 links. */
  ghost predicate HeapOk(m: Memory) {
    && 0 < m.top <= m.capacity
    && HEAD in m.heap && m.heap[HEAD].height == MAX_HEIGHT - 1
    && forall x {:trigger m.heap[x]} :: x in m.heap ==>
         && HEAD <= x && x + NodeBytes(m.heap[x].key, m.heap[x].value, m.heap[x].height) <= m.top
         && |m.heap[x].tower| == m.heap[x].height + 1 <= MAX_HEIGHT
  }

  ghost predicate LevelsOk(cmp: Comparator, m: Memory) {
    && |m.linked| == |m.links| == MAX_HEIGHT
    && (forall i {:trigger m.linked[i]} :: 0 <= i < MAX_HEIGHT ==> LevelOk(cmp, m.heap, m.linked[i], i))
    && (forall i, x {:trigger x in m.linked[i]} :: 0 < i < MAX_HEIGHT && x in m.linked[i] ==> x in m.linked[i - 1])
  }

  /** The list height bounds the levels in use, and the link counts are right. */
  ghost predicate HeightOk(m: Memory)
    requires |m.linked| == |m.links| == MAX_HEIGHT
  {
    && m.height < MAX_HEIGHT
    && (forall i {:trigger m.linked[i]} :: m.height < i < MAX_HEIGHT ==> m.linked[i] == {HEAD})
    && (forall i {:trigger m.links[i]} :: 0 <= i < MAX_HEIGHT ==> m.links[i] + 1 == |m.linked[i]|)
  }

  ghost predicate MemoryOk(cmp: Comparator, m: Memory) {
    HeapOk(m) && LevelsOk(cmp, m) && HeightOk(m)
  }

  // -------------------- calls --------------------

  ghost predicate Ready(m: Memory, op: Op) {
    && op.call.Put? && op.pick < MAX_HEIGHT
    && op.listHeight <= m.height < MAX_HEIGHT
    && |op.prev| == |op.next| == |op.seen| == |op.base| == |op.failed| == MAX_HEIGHT + 1
    && |m.linked| == |m.links| == MAX_HEIGHT
  }

  /** Failed splice CASes on level `j` are paid for by links other calls made there since the first search. */
  ghost predicate Budget(m: Memory, op: Op, j: nat)
    requires Ready(m, op) && j < MAX_HEIGHT
  {
    op.base[j] + op.failed[j] + (if op.node in m.linked[j] then 1 else 0) <= m.links[j]
  }

  /** `prev[j]` and `next[j]` straddle the key on level `j`, and were adjacent when last looked at.
      A single writer sees them adjacent still. */
  ghost predicate SpliceOk(cmp: Comparator, concurrent: bool, m: Memory, op: Op, j: nat)
    requires Ready(m, op) && j < MAX_HEIGHT
  {
    var p, n := op.prev[j], op.next[j];
    && p != 0 && p in m.linked[j] && HasLevel(m.heap, p, j) && BeforeKey(cmp, m.heap, p, op.call.key)
    && (n != 0 ==> n in m.linked[j] && n in m.heap && AfterKey(cmp, m.heap, n, op.call.key))
    && op.base[j] + op.failed[j] <= op.seen[j] <= m.links[j]
    && (op.seen[j] == m.links[j] ==> Next(m.heap, p, j) == n)
    && (!concurrent ==> op.seen[j] == m.links[j])
  }

  ghost predicate Splices(cmp: Comparator, concurrent: bool, m: Memory, op: Op, lo: nat, hi: nat)
    requires Ready(m, op) && hi <= MAX_HEIGHT
  {
    forall j {:trigger op.prev[j]} {:trigger SpliceOk(cmp, concurrent, m, op, j)} :: lo <= j < hi ==>
      SpliceOk(cmp, concurrent, m, op, j)
  }

  /** The call's node: its own key and value, linked on exactly the levels below `level`. */
  ghost predicate Owns(m: Memory, op: Op, level: nat)
    requires op.call.Put?
  {
    && |m.linked| == MAX_HEIGHT
    && HEAD < op.node && op.node in m.heap
    && m.heap[op.node].key == op.call.key && m.heap[op.node].value == op.call.value
    && m.heap[op.node].height == op.pick < MAX_HEIGHT
    && |m.heap[op.node].tower| == op.pick + 1
    && forall j {:trigger m.linked[j]} :: 0 <= j < MAX_HEIGHT ==> (op.node in m.linked[j] <==> j < level)
  }

  ghost predicate Linking(cmp: Comparator, concurrent: bool, m: Memory, op: Op, level: nat, splicesFrom: nat) {
    && Ready(m, op)
    && level <= op.pick <= m.height
    && Owns(m, op, level)
    && Splices(cmp, concurrent, m, op, splicesFrom, op.pick + 1)
  }

  /** A search on a level stands on a linked node before its key. */
  ghost predicate Standing(cmp: Comparator, m: Memory, level: nat, x: nat, key: Bytes) {
    && level < |m.linked|
    && x in m.linked[level] && HasLevel(m.heap, x, level) && BeforeKey(cmp, m.heap, x, key)
  }

  ghost predicate Budgets(m: Memory, op: Op) {
    Ready(m, op) && forall j {:trigger op.failed[j]} {:trigger Budget(m, op, j)} :: 0 <= j < MAX_HEIGHT ==>
      Budget(m, op, j)
  }

  ghost predicate SeekOk(cmp: Comparator, m: Memory, op: Op) {
    && |m.linked| == MAX_HEIGHT && op.node == 0
    && match op.pc
       case ReadHeight => true
       case Walk(level, cursor) =>
         && level < MAX_HEIGHT && cursor in m.linked[level] && HasLevel(m.heap, cursor, level)
         && (!op.call.FindLast? ==> BeforeKey(cmp, m.heap, cursor, op.call.key))
       case StepOver(x) =>
         && op.call.FindNear? && !op.call.less && !op.call.allowEqual
         && x in m.linked[0] && HasLevel(m.heap, x, 0) && EqualKey(m.heap, x, op.call.key)
       case Respond(a) => a.SeekAnswer?
       case Done(a) => a.SeekAnswer?
       case _ => false
  }

  ghost predicate PutOk(cmp: Comparator, concurrent: bool, m: Memory, op: Op)
    requires op.call.Put?
  {
    match op.pc
    case ReadHeight => op.node == 0 && op.pick < MAX_HEIGHT
    case Search(level, before) =>
      && Budgets(m, op) && op.node == 0
      && level <= op.listHeight && Standing(cmp, m, level, before, op.call.key)
      && Splices(cmp, concurrent, m, op, level + 1, MAX_HEIGHT)
      && (forall j {:trigger op.failed[j]} :: 0 <= j <= level ==> op.failed[j] == 0)
      && (!concurrent ==> op.listHeight == m.height)
    case AllocLoad =>
      Budgets(m, op) && op.node == 0 && Splices(cmp, concurrent, m, op, 0, MAX_HEIGHT)
        && (!concurrent ==> op.listHeight == m.height)
    case AllocCas(current) =>
      && Budgets(m, op) && op.node == 0 && Splices(cmp, concurrent, m, op, 0, MAX_HEIGHT)
        && (!concurrent ==> op.listHeight == m.height)
      && OrHead(current) + NodeBytes(op.call.key, op.call.value, op.pick) <= m.capacity
    case Raise(current) =>
      && Budgets(m, op) && Owns(m, op, 0) && Splices(cmp, concurrent, m, op, 0, MAX_HEIGHT)
      && concurrent && current < op.pick
    case StoreHeight =>
      && Budgets(m, op) && Owns(m, op, 0) && Splices(cmp, concurrent, m, op, 0, MAX_HEIGHT)
      && !concurrent && op.listHeight == m.height < op.pick
    case BackOwn => Budgets(m, op) && Linking(cmp, concurrent, m, op, 0, 0) && !concurrent
    case BackNext => Budgets(m, op) && Linking(cmp, concurrent, m, op, 0, 0) && !concurrent && op.next[0] != 0
    case StoreNext(level) => Budgets(m, op) && Linking(cmp, concurrent, m, op, level, level)
    case SwingPrev(level) =>
      Budgets(m, op) && Linking(cmp, concurrent, m, op, level, level) && Next(m.heap, op.node, level) == op.next[level]
    case Research(level, before) =>
      && Budgets(m, op) && Linking(cmp, concurrent, m, op, level, level + 1)
      && concurrent && Standing(cmp, m, level, before, op.call.key)
    case Respond(a) => a.PutAnswer? && Settled(m, op)
    case Done(a) => a.PutAnswer? && Settled(m, op)
    case OutOfMemory => op.node == 0
    case _ => false
  }

  /** A finished put either never allocated, or linked its node on all its levels, or on none. */
  ghost predicate Settled(m: Memory, op: Op)
    requires op.call.Put?
  {
    Budgets(m, op) && (op.node == 0 || Owns(m, op, op.pick + 1) || Owns(m, op, 0))
  }

  ghost predicate OpOk(cmp: Comparator, concurrent: bool, m: Memory, op: Op) {
    if op.call.Put? then PutOk(cmp, concurrent, m, op) else SeekOk(cmp, m, op)
  }

  // -------------------- the log --------------------

  /** The map after performing the logged calls one at a time. */
  function Replay(log: seq<Event>): map<Bytes, Bytes> {
    if log == [] then map[] else Effect(Replay(log[..|log| - 1]), log[|log| - 1].call)
  }

  ghost predicate LegalLog(cmp: Comparator, log: seq<Event>) {
    forall j {:trigger log[j]} :: 0 <= j < |log| ==> Legal(cmp, Replay(log[..j]), log[j].call, log[j].answer)
  }

  /** Has the call taken effect, and with which answer? */
  function Effective(op: Op): Option<Answer> {
    match op.pc
    case StoreNext(level) => if level > 0 then Some(PutAnswer(None)) else None
    case SwingPrev(level) => if level > 0 then Some(PutAnswer(None)) else None
    case Research(level, _) => if level > 0 then Some(PutAnswer(None)) else None
    case Respond(a) => Some(a)
    case Done(a) => Some(a)
    case _ => None
  }

  /** A call that has taken effect is in the log with its answer; a put's node is linked iff the put inserted. */
  ghost predicate Logged(m: Memory, log: seq<Event>, o: nat, op: Op) {
    Effective(op).Some? ==>
      && op.at < |log| && log[op.at] == Event(o, op.call, Effective(op).value)
      && (op.call.Put? && |m.linked| > 0 ==> (op.node in m.linked[0] <==> op.call.key !in Replay(log[..op.at])))
  }

  ghost predicate LogOk(cmp: Comparator, s: State)
    requires MemoryOk(cmp, s.mem)
  {
    && LegalLog(cmp, s.log)
    && DistinctKeys(s.mem.heap, s.mem.linked[0]) && Replay(s.log) == Contents(s.mem.heap, s.mem.linked[0])
    && (forall j {:trigger s.log[j]} :: 0 <= j < |s.log| ==>
          s.log[j].op in s.ops && Effective(s.ops[s.log[j].op]).Some? && s.ops[s.log[j].op].at == j)
    && (forall o {:trigger s.ops[o]} :: o in s.ops ==> Logged(s.mem, s.log, o, s.ops[o]))
  }

  // -------------------- everything --------------------

  ghost predicate CallsOk(cmp: Comparator, s: State) {
    && (forall o {:trigger s.ops[o]} :: o in s.ops ==> OpOk(cmp, s.concurrent, s.mem, s.ops[o]))
    && (forall o1, o2 {:trigger s.ops[o1], s.ops[o2]} ::
          o1 in s.ops && o2 in s.ops && o1 != o2 && s.ops[o1].node != 0 ==>
          s.ops[o1].node != s.ops[o2].node)
    && (!s.concurrent ==> forall o1, o2 {:trigger s.ops[o1], s.ops[o2]} ::
          o1 in s.ops && o2 in s.ops && Writing(s.ops[o1]) && Writing(s.ops[o2]) ==> o1 == o2)
  }

  ghost predicate Inv(cmp: Comparator, s: State) {
    MemoryOk(cmp, s.mem) && CallsOk(cmp, s) && LogOk(cmp, s)
  }

  // -------------------- interference --------------------

  /** How memory may change under a step of a call whose node is `mine`: entries stay, levels only
      gain `mine`, and every other unlinked link is left alone. */
  ghost predicate Evolves(m: Memory, m': Memory, mine: nat) {
    && |m.linked| == |m'.linked| == |m.links| == |m'.links| == MAX_HEIGHT
    && m'.capacity == m.capacity && m.height <= m'.height < MAX_HEIGHT
    && (forall x {:trigger x in m.heap} {:trigger m'.heap[x]} :: x in m.heap ==>
          && x in m'.heap && m'.heap[x].key == m.heap[x].key && m'.heap[x].value == m.heap[x].value
          && m'.heap[x].height == m.heap[x].height && |m'.heap[x].tower| == |m.heap[x].tower|)
    && (forall i, x {:trigger x in m.linked[i]} {:trigger x in m'.linked[i]} :: 0 <= i < MAX_HEIGHT ==>
          && (x in m.linked[i] ==> x in m'.linked[i])
          && (x in m'.linked[i] && (x != mine || x == 0) ==> x in m.linked[i]))
    && (forall i {:trigger m.links[i]} {:trigger m'.links[i]} :: 0 <= i < MAX_HEIGHT ==>
          && m.links[i] <= m'.links[i]
          && (m.links[i] == m'.links[i] ==> forall x {:trigger Next(m'.heap, x, i)} ::
                x in m.linked[i] && HasLevel(m.heap, x, i) ==>
                Next(m'.heap, x, i) == Next(m.heap, x, i)))
    && (forall i, x {:trigger Next(m'.heap, x, i)} ::
          0 <= i < MAX_HEIGHT && HasLevel(m.heap, x, i) && (x != mine || x == 0) && x !in m.linked[i] ==>
          Next(m'.heap, x, i) == Next(m.heap, x, i))
  }
}
