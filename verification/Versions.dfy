/** What a memtable means: the history of its writes, replayed in order. */
module Versions {
  import opened ByteStrings
  import opened Comparators
  import opened InternalKeys
  import opened MapSpec
  import opened Sums

  /** One write: a value or a tombstone under its sequence number. */
  datatype Version = Version(key: Bytes, value: Bytes, sequence: nat, valueType: ValueType)

  type History = seq<Version>

  /** The last-writer-wins map with tombstones. */
  function Replay(history: History): map<Bytes, Version> {
    if history == [] then map[]
    else
      var last := history[|history| - 1];
      Replay(history[..|history| - 1])[last.key := last]
  }

  function Newest(history: History, key: Bytes): Option<Version> {
    if key in Replay(history) then Some(Replay(history)[key]) else None
  }

  /** A tombstone hides the value, and so does absence. */
  function Live(found: Option<Version>): Option<Bytes> {
    match found
    case None => None
    case Some(version) => if version.valueType == Value then Some(version.value) else None
  }

  /** Sequence numbers ascend, stay in range and below the next one; tombstones are empty. */
  ghost predicate Numbered(history: History, next: nat) {
    && (forall i {:trigger history[i]} :: 0 <= i < |history| ==>
          && history[i].sequence <= MAX_SEQUENCE && history[i].sequence < next
          && (history[i].valueType == Delete ==> history[i].value == []))
    && forall i, j :: 0 <= i < j < |history| ==> history[i].sequence < history[j].sequence
  }

  function EncodedKey(v: Version): Bytes
    requires v.sequence <= MAX_SEQUENCE
  {
    New(v.key, v.sequence, v.valueType)
  }

  lemma EncodedLength(v: Version)
    requires v.sequence <= MAX_SEQUENCE
    ensures |EncodedKey(v)| == |v.key| + 8
  {
    DecodeNew(v.key, v.sequence, v.valueType);
  }

  predicate InRange(history: History) {
    forall i :: 0 <= i < |history| ==> history[i].sequence <= MAX_SEQUENCE
  }

  /** The sorted map the writes build. */
  function Encoded(history: History): map<Bytes, Bytes>
    requires InRange(history)
  {
    if history == [] then map[]
    else
      var last := history[|history| - 1];
      Insert(Encoded(history[..|history| - 1]), EncodedKey(last), last.value)
  }

  // -------------------- the map mirrors the history --------------------

  lemma NumberedLater(history: History, next: nat, next': nat)
    requires Numbered(history, next) && next <= next'
    ensures Numbered(history, next')
  {
  }

  lemma NumberedMore(history: History, next: nat, v: Version)
    requires Numbered(history, next) && next <= v.sequence <= MAX_SEQUENCE && (v.valueType == Delete ==> v.value == [])
    ensures Numbered(history + [v], v.sequence + 1)
  {
  }

  /** One write more. */
  lemma Appended(history: History, next: nat, v: Version)
    requires Numbered(history, next) && next <= v.sequence <= MAX_SEQUENCE && (v.valueType == Delete ==> v.value == [])
    ensures Numbered(history + [v], v.sequence + 1)
    ensures EncodedKey(v) !in Encoded(history)
    ensures Encoded(history + [v]) == Encoded(history)[EncodedKey(v) := v.value]
    ensures WrittenBytes(history + [v]) == WrittenBytes(history) + |v.key| + |v.value| + 8
  {
    NumberedMore(history, next, v);
    NewestKeyIsFresh(history, next, v);
    hide Numbered, New;
    assert (history + [v])[..|history|] == history;
  }

  /** `m` holds the encodings of the writes and nothing else. */
  ghost predicate Mirrors(m: map<Bytes, Bytes>, history: History)
    requires InRange(history)
  {
    && (forall e {:trigger e in m} :: e in m ==>
          exists i :: 0 <= i < |history| && e == EncodedKey(history[i]) && m[e] == history[i].value)
    && (forall i {:trigger history[i]} :: 0 <= i < |history| ==> EncodedKey(history[i]) in m)
  }

  lemma MirrorsMore(m: map<Bytes, Bytes>, history: History, v: Version)
    requires InRange(history) && Mirrors(m, history) && v.sequence <= MAX_SEQUENCE && EncodedKey(v) !in m
    ensures InRange(history + [v]) && Mirrors(m[EncodedKey(v) := v.value], history + [v])
  {
    hide EncodedKey;
    var history', m' := history + [v], m[EncodedKey(v) := v.value];
    forall e | e in m'
      ensures exists i :: 0 <= i < |history'| && e == EncodedKey(history'[i]) && m'[e] == history'[i].value
    {
      if e == EncodedKey(v) {
        assert history'[|history|] == v;
      } else {
        var i :| 0 <= i < |history| && e == EncodedKey(history[i]) && m[e] == history[i].value;
        assert history'[i] == history[i];
      }
    }
  }

  lemma EncodedMore(history: History, v: Version)
    requires Numbered(history, v.sequence) && v.sequence <= MAX_SEQUENCE && (v.valueType == Delete ==> v.value == [])
    requires InRange(history) && Mirrors(Encoded(history), history)
    ensures InRange(history + [v]) && Mirrors(Encoded(history + [v]), history + [v])
  {
    Appended(history, v.sequence, v);
    hide Mirrors, Encoded, EncodedKey, Numbered;
    MirrorsMore(Encoded(history), history, v);
  }

  lemma {:induction false} EncodedMembers(history: History, next: nat)
    requires Numbered(history, next)
    ensures InRange(history) && Mirrors(Encoded(history), history)
  {
    hide Mirrors, Encoded, EncodedKey;
    if history == [] {
      NothingMirrorsNothing();
    } else {
      var front, last := history[..|history| - 1], history[|history| - 1];
      EncodedMembers(front, next);
      EncodedMore(front, last);
      assert history == front + [last];
    }
  }

  lemma NothingMirrorsNothing()
    ensures Mirrors(Encoded([]), [])
  {
  }

  /** A version numbered after the whole history is not in the map: the skiplist's duplicate branch is never taken. */
  lemma {:induction false} NewestKeyIsFresh(history: History, next: nat, v: Version)
    requires Numbered(history, next) && next <= v.sequence <= MAX_SEQUENCE
    ensures EncodedKey(v) !in Encoded(history)
  {
    if history != [] {
      var last := history[|history| - 1];
      NewestKeyIsFresh(history[..|history| - 1], next, v);
      DecodeNew(v.key, v.sequence, v.valueType);
      DecodeNew(last.key, last.sequence, last.valueType);
    }
  }

  /** The running total kept by the table: user key, value and trailer of every write. */
  function WrittenBytes(history: History): nat {
    if history == [] then 0
    else
      var last := history[|history| - 1];
      WrittenBytes(history[..|history| - 1]) + |last.key| + |last.value| + 8
  }

  // -------------------- sizes --------------------

  lemma {:induction false} OneEntryPerWrite(history: History, next: nat)
    requires Numbered(history, next)
    ensures |Encoded(history)| == |history|
  {
    if history != [] {
      var front, last := history[..|history| - 1], history[|history| - 1];
      OneEntryPerWrite(front, next);
      NewestKeyIsFresh(front, last.sequence, last);
    }
  }

  ghost function EntryBytes(m: map<Bytes, Bytes>): Bytes -> nat {
    e => |e| + if e in m then |m[e]| else 0
  }

  /** The running total is the summed size of the stored entries. */
  lemma {:induction false} WrittenBytesAreStored(history: History, next: nat)
    requires Numbered(history, next)
    ensures WrittenBytes(history) == Sum(Encoded(history).Keys, EntryBytes(Encoded(history)))
  {
    if history != [] {
      var front, last := history[..|history| - 1], history[|history| - 1];
      WrittenBytesAreStored(front, next);
      Appended(front, last.sequence, last);
      assert history == front + [last];
      EncodedLength(last);
      hide Encoded, EncodedKey, Numbered, WrittenBytes;
      EntryAdded(Encoded(front), EncodedKey(last), last.value);
    }
  }

  lemma EntryAdded(m: map<Bytes, Bytes>, e: Bytes, value: Bytes)
    requires e !in m
    ensures var m' := m[e := value]; Sum(m'.Keys, EntryBytes(m')) == Sum(m.Keys, EntryBytes(m)) + |e| + |value|
  {
    var m' := m[e := value];
    assert m'.Keys == m.Keys + {e};
    SumAdd(m.Keys, EntryBytes(m'), e);
    SumSameWeights(m.Keys, EntryBytes(m), EntryBytes(m'));
  }

  // -------------------- the single seek --------------------

  /** The one write a lookup cannot see: a tombstone at MAX_SEQUENCE, which sorts before every search key. It can only
      be the last write of a history. */
  predicate HidesTombstone(history: History) {
    && history != []
    && history[|history| - 1].sequence == MAX_SEQUENCE && history[|history| - 1].valueType == Delete
  }

  function Visible(history: History): History {
    if HidesTombstone(history) then history[..|history| - 1] else history
  }

  lemma {:induction false} ReplayIndex(history: History, key: Bytes) returns (i: nat)
    ensures key in Replay(history) ==>
              i < |history| && history[i].key == key && Replay(history)[key] == history[i]
              && forall j :: i < j < |history| ==> history[j].key != key
    ensures key !in Replay(history) ==> forall j :: 0 <= j < |history| ==> history[j].key != key
  {
    if history == [] {
      i := 0;
    } else {
      var front := history[..|history| - 1];
      var k := ReplayIndex(front, key);
      i := if history[|history| - 1].key == key then |history| - 1 else k;
      assert forall j :: 0 <= j < |front| ==> history[j] == front[j];
    }
  }

  /** The last write of a key. */
  ghost predicate LastWrite(history: History, key: Bytes, i: nat) {
    i < |history| && history[i].key == key && forall j :: i < j < |history| ==> history[j].key != key
  }

  ghost predicate NeverWritten(history: History, key: Bytes) {
    forall i :: 0 <= i < |history| ==> history[i].key != key
  }

  /** The version found, said on the writes themselves: the last write of the key, or nothing if there is none. */
  ghost predicate Finds(history: History, key: Bytes, found: Option<Version>) {
    match found
    case None => NeverWritten(history, key)
    case Some(version) => exists i: nat :: LastWrite(history, key, i) && version == history[i]
  }

  /** The value read: that of the last write if it is no tombstone, and otherwise nothing, as for a key never written.
      */
  ghost predicate Reads(history: History, key: Bytes, value: Option<Bytes>) {
    && (NeverWritten(history, key) ==> value == None)
    && forall i: nat {:trigger LastWrite(history, key, i)} :: LastWrite(history, key, i) ==>
         value == if history[i].valueType == Value then Some(history[i].value) else None
  }

  lemma LookupMeans(history: History, key: Bytes)
    ensures Finds(history, key, Newest(history, key)) && Reads(history, key, Live(Newest(history, key)))
    ensures NeverWritten(history, key) || exists i: nat :: LastWrite(history, key, i)
  {
    var i := ReplayIndex(history, key);
    if key in Replay(history) {
      assert LastWrite(history, key, i);
    } else {
      assert NeverWritten(history, key);
    }
  }

  /** What `lookup` makes of the entry its seek lands on. */
  function Decoded(found: Option<Entry>, key: Bytes): Option<Version>
    requires found.Some? ==> |found.value.0| >= TRAILER_LEN && 0 <= Sequence(found.value.0)
  {
    match found
    case None => None
    case Some(entry) =>
      if UserKey(entry.0) != key then None
      else Some(Version(key, entry.1, Sequence(entry.0), TypeOf(entry.0)))
  }

  /** Where the seek may stop: at encodings of visible versions of the key, or past the key. */
  lemma WantedIsVisible(history: History, next: nat, key: Bytes, j: nat)
    requires Numbered(history, next) && j < |history|
    requires Wanted(CompareKey, NewMax(key), false, true, EncodedKey(history[j]))
    requires history[j].key == key
    ensures j < |Visible(history)| && Visible(history)[j] == history[j]
  {
    var v := history[j];
    SearchKeyBoundary(key, v.sequence, v.valueType);
    CompareKeyIsTotalOrder();
  }

  lemma VisibleIsWanted(history: History, next: nat, j: nat)
    requires Numbered(history, next) && j < |Visible(history)|
    ensures Wanted(CompareKey, NewMax(history[j].key), false, true, EncodedKey(history[j]))
  {
    var v := history[j];
    assert !(v.sequence == MAX_SEQUENCE && v.valueType == Delete) by {
      if j < |history| - 1 {
        assert v.sequence < history[|history| - 1].sequence <= MAX_SEQUENCE;
      }
    }
    SearchKeyBoundary(v.key, v.sequence, v.valueType);
    EncodingPreservesOrder(v.key, v.sequence, v.valueType, v.key, MAX_SEQUENCE, Value);
    CompareKeyIsTotalOrder();
  }

  /** An encoding between the search key of a user key and one of its versions is a version at least as new. */
  lemma Sandwich(key: Bytes, v: Version, w: Version)
    requires v.sequence <= MAX_SEQUENCE && w.sequence <= MAX_SEQUENCE && w.key == key
    requires CompareKey(EncodedKey(v), NewMax(key)) != Less
    requires CompareKey(EncodedKey(w), EncodedKey(v)) != Less
    ensures v.key == key && v.sequence >= w.sequence
  {
    EncodingPreservesOrder(v.key, v.sequence, v.valueType, key, MAX_SEQUENCE, Value);
    EncodingPreservesOrder(w.key, w.sequence, w.valueType, v.key, v.sequence, v.valueType);
    LexFlip(v.key, key);
    LexEqual(v.key, key);
  }

  /** One seek to the search key finds exactly the newest visible version. */
  lemma SeekFindsNewestVisible(history: History, next: nat, key: Bytes, found: Option<Entry>)
    requires Numbered(history, next)
    requires Nearest(CompareKey, Encoded(history), NewMax(key), false, true, found)
    ensures found.Some? ==> |found.value.0| >= TRAILER_LEN && 0 <= Sequence(found.value.0)
    ensures Decoded(found, key) == Newest(Visible(history), key)
  {
    hide Encoded, NewMax, Replay, TotalOrder;
    EncodedMembers(history, next);
    var i := ReplayIndex(Visible(history), key);
    if found.Some? {
      var e := found.value.0;
      var j :| 0 <= j < |history| && e == EncodedKey(history[j]) && found.value.1 == history[j].value;
      var v := history[j];
      DecodeNew(v.key, v.sequence, v.valueType);
      CompareKeyIsTotalOrder();
      if key in Replay(Visible(history)) {
        LandsOnNewest(history, next, key, e, i, j);
      } else if v.key == key {
        WantedIsVisible(history, next, key, j);
        assert false;
      }
    } else if key in Replay(Visible(history)) {
      assert EncodedKey(history[i]) in Encoded(history);
      VisibleIsWanted(history, next, i);
      assert false;
    }
  }

  lemma LandsOnNewest(history: History, next: nat, key: Bytes, e: Bytes, i: nat, j: nat)
    requires Numbered(history, next) && i < |Visible(history)| && j < |history| && e == EncodedKey(history[j])
    requires history[i].key == key && forall k :: i < k < |Visible(history)| ==> Visible(history)[k].key != key
    requires EncodedKey(history[i]) in Encoded(history)
    requires Wanted(CompareKey, NewMax(key), false, true, e)
    requires forall c :: c in Encoded(history) && Wanted(CompareKey, NewMax(key), false, true, c) ==>
             c == e || CompareKey(c, e) == Greater
    ensures j == i
  {
    CompareKeyIsTotalOrder();
    VisibleIsWanted(history, next, i);
    Sandwich(key, history[j], history[i]);
    WantedIsVisible(history, next, key, j);
  }

  // -------------------- when lookups agree with the replay --------------------

  /** A lookup returns the newest version, tombstones included, exactly unless that version is the invisible tombstone.
      */
  lemma LookupIsNewestIff(history: History, next: nat, key: Bytes)
    requires Numbered(history, next)
    ensures Newest(Visible(history), key) == Newest(history, key)
            <==> !(HidesTombstone(history) && history[|history| - 1].key == key)
  {
    if HidesTombstone(history) && history[|history| - 1].key == key {
      var i := ReplayIndex(Visible(history), key);
      assert Newest(Visible(history), key).Some? ==> history[i].sequence < MAX_SEQUENCE;
    }
  }

  /** `get` is right exactly unless the last write is an invisible tombstone for a key that was live before it. */
  lemma GetIsRightIff(history: History, next: nat, key: Bytes)
    requires Numbered(history, next)
    ensures Live(Newest(Visible(history), key)) == Live(Newest(history, key))
            <==> !(HidesTombstone(history) && history[|history| - 1].key == key
                   && Live(Newest(history[..|history| - 1], key)) != None)
  {
    LookupIsNewestIff(history, next, key);
  }

  /** `contains` is right exactly unless the last write is an invisible tombstone for a key never written before it. */
  lemma ContainsIsRightIff(history: History, next: nat, key: Bytes)
    requires Numbered(history, next)
    ensures (Newest(Visible(history), key) != None <==> Newest(history, key) != None)
            <==> !(HidesTombstone(history) && history[|history| - 1].key == key
                   && Newest(history[..|history| - 1], key) == None)
  {
    LookupIsNewestIff(history, next, key);
  }

  // -------------------- runs --------------------

  datatype Command = PutKey(key: Bytes, value: Bytes) | DeleteKey(key: Bytes)

  function VersionOf(command: Command, sequence: nat): Version {
    match command
    case PutKey(key, value) => Version(key, value, sequence, Value)
    case DeleteKey(key) => Version(key, [], sequence, Delete)
  }

  /** The history of a fresh table after these commands, of which those marked done succeeded. Every command uses up a
      sequence number, the first one number 1. */
  function HistoryOf(commands: seq<Command>, done: seq<bool>): History
    requires |done| == |commands|
  {
    if commands == [] then []
    else
      var n := |commands| - 1;
      HistoryOf(commands[..n], done[..n]) + if done[n] then [VersionOf(commands[n], n + 1)] else []
  }

  lemma HistoryMore(commands: seq<Command>, done: seq<bool>, ok: bool)
    requires |done| < |commands|
    ensures HistoryOf(commands[..|done| + 1], done + [ok])
            == HistoryOf(commands[..|done|], done) + if ok then [VersionOf(commands[|done|], |done| + 1)] else []
  {
    var n := |done|;
    assert commands[..n + 1][..n] == commands[..n] && (done + [ok])[..n] == done;
  }

  /** No command past the last sequence number succeeds. */
  predicate InTime(done: seq<bool>) {
    forall i :: 0 <= i < |done| && done[i] ==> i < MAX_SEQUENCE
  }

  lemma {:induction false} HistoryIsNumbered(commands: seq<Command>, done: seq<bool>)
    requires |done| == |commands| && InTime(done)
    ensures Numbered(HistoryOf(commands, done), |commands| + 1)
  {
    if commands != [] {
      var n := |commands| - 1;
      HistoryIsNumbered(commands[..n], done[..n]);
      var history := HistoryOf(commands[..n], done[..n]);
      hide Numbered;
      if done[n] {
        NumberedMore(history, n + 1, VersionOf(commands[n], n + 1));
      } else {
        NumberedLater(history, n + 1, n + 2);
        assert HistoryOf(commands, done) == history;
      }
    }
  }

  lemma {:induction false} HidesTombstoneIff(commands: seq<Command>, done: seq<bool>)
    requires |done| == |commands| && InTime(done)
    ensures HidesTombstone(HistoryOf(commands, done))
            <==> |commands| >= MAX_SEQUENCE && done[MAX_SEQUENCE - 1] && commands[MAX_SEQUENCE - 1].DeleteKey?
  {
    if commands != [] {
      var n := |commands| - 1;
      if !done[n] {
        HidesTombstoneIff(commands[..n], done[..n]);
        assert HistoryOf(commands, done) == HistoryOf(commands[..n], done[..n]);
      }
    }
  }

  /** Lookups after any run of writes, failed ones included, agree with the replay of the successful ones, for every
      key, unless the last sequence number went to a successful delete. */
  lemma RunsAreRightIff(commands: seq<Command>, done: seq<bool>)
    requires |done| == |commands| && InTime(done)
    ensures (forall key :: Newest(Visible(HistoryOf(commands, done)), key) == Newest(HistoryOf(commands, done), key))
            <==> !(|commands| >= MAX_SEQUENCE && done[MAX_SEQUENCE - 1] && commands[MAX_SEQUENCE - 1].DeleteKey?)
  {
    HistoryIsNumbered(commands, done);
    HidesTombstoneIff(commands, done);
    var history := HistoryOf(commands, done);
    forall key
      ensures Newest(Visible(history), key) == Newest(history, key)
              <==> !(HidesTombstone(history) && history[|history| - 1].key == key)
    {
      LookupIsNewestIff(history, |commands| + 1, key);
    }
    if HidesTombstone(history) {
      var key := history[|history| - 1].key;
      assert Newest(Visible(history), key) != Newest(history, key);
    }
  }

  /** A key written and then deleted under the last two sequence numbers is dead and is still seen alive. */
  lemma LastDeletionLost(history: History, key: Bytes, value: Bytes)
    ensures var history' := history + [Version(key, value, MAX_SEQUENCE - 1, Value)] + [Version(key, [], MAX_SEQUENCE,
            Delete)];
            Live(Newest(history', key)) == None && Live(Newest(Visible(history'), key)) == Some(value)
  {
    var h1 := history + [Version(key, value, MAX_SEQUENCE - 1, Value)];
    var h2 := h1 + [Version(key, [], MAX_SEQUENCE, Delete)];
    assert h2[..|h1|] == h1;
    assert h1[|h1| - 1] == Version(key, value, MAX_SEQUENCE - 1, Value);
  }

  lemma LastTwo(commands: seq<Command>, done: seq<bool>)
    requires |done| == |commands| >= 2 && done[|done| - 1] && done[|done| - 2]
    ensures var n := |commands| - 2;
            HistoryOf(commands, done) == HistoryOf(commands[..n], done[..n])
            + [VersionOf(commands[n], n + 1)] + [VersionOf(commands[n + 1], n + 2)]
  {
    var n := |commands| - 1;
    assert commands[..n][..n - 1] == commands[..n - 1] && done[..n][..n - 1] == done[..n - 1];
  }

  /** A run that shows the failure: whatever came before and whether it succeeded, when the last two sequence numbers go
      to a write of a key and to its deletion, the key is dead and is still seen alive. */
  lemma DeletionLost(commands: seq<Command>, done: seq<bool>, key: Bytes, value: Bytes)
    requires |done| == |commands| == MAX_SEQUENCE && done[|done| - 1] && done[|done| - 2]
    requires commands[|commands| - 2] == PutKey(key, value) && commands[|commands| - 1] == DeleteKey(key)
    ensures var history := HistoryOf(commands, done);
            Live(Newest(history, key)) == None && Live(Newest(Visible(history), key)) == Some(value)
  {
    var n := |commands| - 2;
    LastTwo(commands, done);
    hide HistoryOf;
    LastDeletionLost(HistoryOf(commands[..n], done[..n]), key, value);
  }
}
