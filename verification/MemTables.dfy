/** The memtable: versioned writes on a single-writer skiplist, lookups by one seek. */
module MemTables {
  import opened ByteStrings
  import opened Comparators
  import opened InternalKeys
  import opened Levels
  import opened NodeSizes
  import opened MapSpec
  import opened Sums
  import opened Arenas
  import opened ListShape
  import opened SkipLists
  import opened Iterators
  import opened Versions

  datatype WriteOutcome = Written(sequence: nat) | SequenceOverflow | OutOfMemory

  class MemTable {
    const list: SkipList
    const id: nat
    /** The number the next write gets. */
    var nextSequence: nat
    var approximateSize: nat
    /** The writes that succeeded. */
    ghost var history: History

    ghost predicate Valid()
      reads this, list, list.arena, list.arena.buf
    {
      && list.Valid() && list.cmp == CompareKey
      && Numbered(history, nextSequence) && list.Contents() == Encoded(history)
      && approximateSize == WrittenBytes(history)
    }

    constructor Over(id: nat, list: SkipList)
      requires list.Valid() && list.cmp == CompareKey && list.Contents() == map[]
      ensures Valid() && this.id == id && this.list == list && history == [] && nextSequence == 1
              && approximateSize == 0
    {
      hide Represents, Settled, TotalOrder, Stored;
      this.list := list;
      this.id := id;
      this.nextSequence := 1;
      this.approximateSize := 0;
      this.history := [];
    }

    /** An empty table; None is the panic of an arena too small for the list's head or larger than the allocator
        accepts. */
    static method WithCapacity(id: nat, capacity: nat) returns (r: Option<MemTable>)
      ensures r == None <==> capacity < 192 || capacity > MAX_CAPACITY
      ensures r != None ==>
                && fresh(r.value) && fresh(r.value.list) && fresh(r.value.list.arena) && fresh(r.value.list.arena.buf)
                && r.value.Valid() && r.value.history == [] && r.value.nextSequence == 1
                && r.value.approximateSize == 0 && r.value.id == id
                && r.value.list.arena.top == 192 && r.value.list.arena.capacity == capacity
    {
      hide Represents, Settled, TotalOrder, Stored;
      CompareKeyIsTotalOrder();
      var list := SkipList.WithCapacity(CompareKey, capacity);
      if list == None {
        return None;
      }
      var table := new MemTable.Over(id, list.value);
      return Some(table);
    }

    /** Insert a value; `height` is the list's random draw. A number is used up even when the write fails. */
    method Put(key: Bytes, value: Bytes, height: nat) returns (r: WriteOutcome)
      requires Valid() && height < MAX_HEIGHT && |key| + 8 < U32_SIZE && |value| < U32_SIZE
      modifies this, list`height, list.arena, list.arena.buf
      ensures Valid() && nextSequence == old(nextSequence) + 1
      ensures r == SequenceOverflow <==> old(nextSequence) > MAX_SEQUENCE
      ensures r == OutOfMemory <==>
              old(nextSequence) <= MAX_SEQUENCE
              && old(list.arena.top) + NodeBytes(New(key, old(nextSequence), Value), value, height)
                 > list.arena.capacity
      ensures r.Written? ==> r.sequence == old(nextSequence)
      ensures approximateSize == old(approximateSize) + if r.Written? then |key| + |value| + 8 else 0
      ensures history == if r.Written? then old(history) + [Version(key, value, old(nextSequence), Value)]
              else old(history)
      ensures !r.Written? ==> list.arena.top == old(list.arena.top)
      ensures r.Written? ==>
                list.arena.top == old(list.arena.top) + NodeBytes(New(key, old(nextSequence), Value), value, height)
    {
      r := Write(Version(key, value, nextSequence, Value), height);
    }

    /** Insert a tombstone. */
    method Delete(key: Bytes, height: nat) returns (r: WriteOutcome)
      requires Valid() && height < MAX_HEIGHT && |key| + 8 < U32_SIZE
      modifies this, list`height, list.arena, list.arena.buf
      ensures Valid() && nextSequence == old(nextSequence) + 1
      ensures r == SequenceOverflow <==> old(nextSequence) > MAX_SEQUENCE
      ensures r == OutOfMemory <==>
              old(nextSequence) <= MAX_SEQUENCE
              && old(list.arena.top) + NodeBytes(New(key, old(nextSequence), ValueType.Delete), [], height)
                 > list.arena.capacity
      ensures r.Written? ==> r.sequence == old(nextSequence)
      ensures approximateSize == old(approximateSize) + if r.Written? then |key| + 8 else 0
      ensures history == if r.Written? then old(history) + [Version(key, [], old(nextSequence), ValueType.Delete)]
              else old(history)
      ensures !r.Written? ==> list.arena.top == old(list.arena.top)
      ensures r.Written? ==>
                list.arena.top
                == old(list.arena.top) + NodeBytes(New(key, old(nextSequence), ValueType.Delete), [], height)
    {
      r := Write(Version(key, [], nextSequence, ValueType.Delete), height);
    }

    /** What `put` and `delete` have in common. */
    method Write(v: Version, height: nat) returns (r: WriteOutcome)
      requires Valid() && height < MAX_HEIGHT && |v.key| + 8 < U32_SIZE && |v.value| < U32_SIZE
      requires v.sequence == nextSequence && (v.valueType == ValueType.Delete ==> v.value == [])
      modifies this, list`height, list.arena, list.arena.buf
      ensures Valid() && nextSequence == old(nextSequence) + 1
      ensures r == SequenceOverflow <==> v.sequence > MAX_SEQUENCE
      ensures r == OutOfMemory <==>
              v.sequence <= MAX_SEQUENCE
                && old(list.arena.top) + NodeBytes(EncodedKey(v), v.value, height) > list.arena.capacity
      ensures r.Written? ==> r.sequence == v.sequence
      ensures approximateSize == old(approximateSize) + if r.Written? then |v.key| + |v.value| + 8 else 0
      ensures history == if r.Written? then old(history) + [v] else old(history)
      ensures !r.Written? ==> list.arena.top == old(list.arena.top)
      ensures r.Written? ==> list.arena.top == old(list.arena.top) + NodeBytes(EncodedKey(v), v.value, height)
    {
      hide Represents, Settled, TotalOrder, Stored, NodeBytes, Numbered, Encoded, EncodedKey, New, WrittenBytes,
        Extends;
      nextSequence := nextSequence + 1;
      NumberedLater(history, v.sequence, nextSequence);
      if v.sequence > MAX_SEQUENCE {
        return SequenceOverflow;
      }
      Appended(history, v.sequence, v);
      EncodedLength(v);
      var outcome := list.Put(EncodedKey(v), v.value, height);
      if outcome == Panicked {
        return OutOfMemory;
      }
      approximateSize := approximateSize + |v.key| + |v.value| + 8;
      history := history + [v];
      return Written(v.sequence);
    }

    /** The newest visible version of a key. */
    method Lookup(key: Bytes) returns (r: Option<Version>)
      requires Valid()
      ensures r == Newest(Visible(history), key)
      ensures Finds(Visible(history), key, r)
    {
      LookupMeans(Visible(history), key);
      hide Represents, Settled, TotalOrder, Stored, Nearest;
      var search := NewMax(key);
      var it := new IterRef(list);
      it.Seek(search);
      SeekFindsNewestVisible(history, nextSequence, key, it.Here());
      var found := it.Key();
      if found == None {
        return None;
      }
      if UserKey(found.value) != key {
        return None;
      }
      var value := it.Value();
      return Some(Version(key, value.value, Sequence(found.value), TypeOf(found.value)));
    }

    /** The live value of a key. */
    method Get(key: Bytes) returns (r: Option<Bytes>)
      requires Valid()
      ensures r == Live(Newest(Visible(history), key))
      ensures Reads(Visible(history), key, r)
      ensures !HidesTombstone(history) ==> r == Live(Newest(history, key))
    {
      var found := Lookup(key);
      LookupMeans(Visible(history), key);
      return match found
             case None => None
             case Some(version) => if version.valueType == Value then Some(version.value) else None;
    }

    method GetEntry(key: Bytes) returns (r: Option<Version>)
      requires Valid()
      ensures r == Newest(Visible(history), key)
      ensures Finds(Visible(history), key, r)
      ensures !HidesTombstone(history) ==> r == Newest(history, key)
    {
      r := Lookup(key);
      LookupMeans(Visible(history), key);
    }

    method Has(key: Bytes) returns (r: bool)
      requires Valid()
      ensures r <==> key in Replay(Visible(history))
      ensures r <==> !NeverWritten(Visible(history), key)
      ensures !HidesTombstone(history) ==> (r <==> key in Replay(history))
    {
      var found := Lookup(key);
      LookupMeans(Visible(history), key);
      return found != None;
    }

    /** One node per successful write: nothing was a duplicate. */
    method Len() returns (count: nat)
      requires Valid()
      ensures count == |history|
    {
      hide Represents, Settled, TotalOrder, Stored;
      OneEntryPerWrite(history, nextSequence);
      count := list.Len();
    }

    /** Encoded key and value bytes of all entries. */
    method ApproximateSize() returns (bytes: nat)
      requires Valid()
      ensures bytes == Sum(list.Contents().Keys, EntryBytes(list.Contents()))
    {
      hide Represents, Settled, TotalOrder, Stored;
      WrittenBytesAreStored(history, nextSequence);
      bytes := approximateSize;
    }
  }

  // -------------------- runs --------------------

  /** Arena bytes a write may take: its node at the tallest draw. */
  function Cost(command: Command): nat {
    RoundUp(KvDataOff(MAX_HEIGHT - 1) + |command.key| + 8 + if command.PutKey? then |command.value| else 0)
  }

  function TotalCost(commands: seq<Command>): nat {
    if commands == [] then 0 else TotalCost(commands[..|commands| - 1]) + Cost(commands[|commands| - 1])
  }

  /** Lengths fit the node header. */
  predicate Fits(command: Command) {
    |command.key| + 8 < U32_SIZE && (command.PutKey? ==> |command.value| < U32_SIZE)
  }

  lemma CostCovers(command: Command, sequence: nat, height: nat)
    requires sequence <= MAX_SEQUENCE && height < MAX_HEIGHT
    ensures var v := VersionOf(command, sequence); NodeBytes(EncodedKey(v), v.value, height) <= Cost(command)
  {
    EncodedLength(VersionOf(command, sequence));
  }

  lemma {:induction false} PrefixCostsLess(commands: seq<Command>, i: nat)
    requires i < |commands|
    ensures TotalCost(commands[..i]) + Cost(commands[i]) <= TotalCost(commands)
  {
    var front := commands[..|commands| - 1];
    if i < |front| {
      PrefixCostsLess(front, i);
      assert front[..i] == commands[..i];
    }
  }

  /** One write. */
  method RunCommand(table: MemTable, command: Command, height: nat) returns (ok: bool)
    requires table.Valid() && height < MAX_HEIGHT && Fits(command)
    modifies table, table.list`height, table.list.arena, table.list.arena.buf
    ensures table.Valid() && table.nextSequence == old(table.nextSequence) + 1
    ensures table.history == if ok then old(table.history) + [VersionOf(command, old(table.nextSequence))]
            else old(table.history)
    ensures ok ==> old(table.nextSequence) <= MAX_SEQUENCE
    ensures table.list.arena.top <= old(table.list.arena.top) + Cost(command)
    ensures (old(table.nextSequence) <= MAX_SEQUENCE
             && old(table.list.arena.top) + Cost(command) <= table.list.arena.capacity) ==> ok
  {
    hide Represents, Settled, TotalOrder, Stored, Numbered, Encoded, New, NodeBytes, Cost;
    if table.nextSequence <= MAX_SEQUENCE {
      CostCovers(command, table.nextSequence, height);
    }
    var outcome;
    match command {
      case PutKey(key, value) => outcome := table.Put(key, value, height);
      case DeleteKey(key) => outcome := table.Delete(key, height);
    }
    return outcome.Written?;
  }

  lemma EmptyHistory()
    ensures HistoryOf([], []) == []
  {
  }

  /** A run of writes on a fresh table. A write that fails uses up its number, and the run goes on. */
  method RunCommands(table: MemTable, commands: seq<Command>, heights: seq<nat>) returns (done: seq<bool>)
    requires table.Valid() && table.history == [] && table.nextSequence == 1
    requires |heights| == |commands| && forall i :: 0 <= i < |heights| ==> heights[i] < MAX_HEIGHT
    requires forall i :: 0 <= i < |commands| ==> Fits(commands[i])
    modifies table, table.list`height, table.list.arena, table.list.arena.buf
    ensures table.Valid() && table.nextSequence == |commands| + 1
    ensures |done| == |commands| && InTime(done) && table.history == HistoryOf(commands, done)
    ensures |commands| <= MAX_SEQUENCE && old(table.list.arena.top) + TotalCost(commands) <= table.list.arena.capacity
            ==> forall i :: 0 <= i < |done| ==> done[i]
  {
    hide Represents, Settled, TotalOrder, Stored, Numbered, Encoded, Cost, HistoryOf, VersionOf;
    done := [];
    assert HistoryOf([], []) == [] by { EmptyHistory(); }
    while |done| < |commands|
      invariant table.Valid() && |done| <= |commands| && table.nextSequence == |done| + 1
      invariant InTime(done) && table.history == HistoryOf(commands[..|done|], done)
      invariant table.list.arena.top <= old(table.list.arena.top) + TotalCost(commands[..|done|])
      invariant |commands| <= MAX_SEQUENCE
                && old(table.list.arena.top) + TotalCost(commands) <= table.list.arena.capacity
                ==> forall i :: 0 <= i < |done| ==> done[i]
      decreases |commands| - |done|
    {
      var i := |done|;
      PrefixCostsLess(commands, i);
      var ok := RunCommand(table, commands[i], heights[i]);
      HistoryMore(commands, done, ok);
      assert commands[..i + 1][..i] == commands[..i];
      done := done + [ok];
    }
    assert commands[..|done|] == commands;
  }

  /** The boundary case on a table, however small its arena: writes of a value too big for the arena use up all but two
      sequence numbers, then the key is written and deleted. The deletion is not seen. */
  method LoseDeletion(table: MemTable, key: Bytes, value: Bytes, big: Bytes, height: nat) returns (got: Option<Bytes>)
    requires table.Valid() && table.nextSequence < MAX_SEQUENCE
    requires height < MAX_HEIGHT && Fits(PutKey(key, value)) && Fits(PutKey(key, big))
    requires |big| > table.list.arena.capacity
    requires table.list.arena.top + Cost(PutKey(key, value)) + Cost(DeleteKey(key)) <= table.list.arena.capacity
    modifies table, table.list`height, table.list.arena, table.list.arena.buf
    ensures table.Valid() && Live(Newest(table.history, key)) == None && got == Some(value)
  {
    hide Represents, Settled, TotalOrder, Stored, Numbered, Encoded, New, NodeBytes, Cost, Visible, HidesTombstone,
      Replay;
    while table.nextSequence < MAX_SEQUENCE - 1
      invariant table.Valid() && table.nextSequence < MAX_SEQUENCE
      invariant table.history == old(table.history) && table.list.arena.top == old(table.list.arena.top)
      decreases MAX_SEQUENCE - table.nextSequence
    {
      TooBig(key, table.nextSequence, big, height);
      var failed := table.Put(key, big, height);
    }
    ghost var history := table.history;
    var written := RunCommand(table, PutKey(key, value), height);
    var deleted := RunCommand(table, DeleteKey(key), height);
    LastDeletionLost(history, key, value);
    got := table.Get(key);
  }

  lemma TooBig(key: Bytes, sequence: nat, value: Bytes, height: nat)
    requires sequence <= MAX_SEQUENCE
    ensures NodeBytes(New(key, sequence, Value), value, height) > |value|
  {
  }
}
