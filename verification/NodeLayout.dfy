/** How a node lies in the arena's bytes: a 24-byte header, a tower of height + 1 words, key, value. */
module NodeLayout {
  import opened ByteStrings
  import opened Levels
  import opened NodeSizes

  const KEY_LEN_OFF := 0
  const VALUE_LEN_OFF := 4
  const HEIGHT_OFF := 8
  const PREV_OFF := 16

  function SizeOf(n: Node): nat {
    NodeSize(n.key, n.value, n.height)
  }

  // -------------------- loads and stores --------------------

  function Store(b: Bytes, at: nat, bs: Bytes): (r: Bytes)
    requires at + |bs| <= |b|
    ensures |r| == |b|
  {
    seq(|b|, i requires 0 <= i < |b| => if at <= i < at + |bs| then bs[i - at] else b[i])
  }

  function LoadInt(b: Bytes, at: nat, width: nat): nat
    requires at + width <= |b|
  {
    FromLittleEndian(b[at..at + width])
  }

  /** Two buffers that agree outside a window. */
  ghost predicate SameOutside(b: Bytes, b': Bytes, lo: nat, hi: nat) {
    |b'| == |b| && forall k {:trigger b'[k]} {:trigger b[k]} :: 0 <= k < |b| && (k < lo || hi <= k) ==> b'[k] == b[k]
  }

  lemma SliceKept(b: Bytes, b': Bytes, lo: nat, hi: nat, from: nat, to: nat)
    requires SameOutside(b, b', lo, hi) && from <= to <= |b| && (to <= lo || hi <= from)
    ensures b'[from..to] == b[from..to]
  {
  }

  lemma StoreOutside(b: Bytes, at: nat, bs: Bytes, lo: nat, hi: nat)
    requires lo <= at && at + |bs| <= hi <= |b|
    ensures SameOutside(b, Store(b, at, bs), lo, hi)
  {
  }

  lemma StoreElsewhere(b: Bytes, at: nat, bs: Bytes, from: nat, to: nat)
    requires at + |bs| <= |b| && from <= to <= |b| && (to <= at || at + |bs| <= from)
    ensures Store(b, at, bs)[from..to] == b[from..to]
  {
  }

  lemma StoreHere(b: Bytes, at: nat, bs: Bytes)
    requires at + |bs| <= |b|
    ensures Store(b, at, bs)[at..at + |bs|] == bs
  {
  }

  /** A word written and read back is truncated to the width of the word. */
  lemma LoadStored(b: Bytes, at: nat, v: nat, width: nat)
    requires at + width <= |b|
    ensures LoadInt(Store(b, at, LittleEndian(v, width)), at, width) == v % Power256(width)
  {
    StoreHere(b, at, LittleEndian(v, width));
    LittleEndianTruncates(v, width);
  }

  lemma LoadWord(b: Bytes, at: nat, v: nat)
    requires at + 8 <= |b| && v < U64_SIZE
    ensures LoadInt(Store(b, at, LittleEndian(v, 8)), at, 8) == v
  {
    WordWidths();
    LoadStored(b, at, v, 8);
    SmallRemainder(v, U64_SIZE);
  }

  lemma SmallRemainder(v: nat, m: nat)
    requires v < m
    ensures v % m == v
  {
  }

  // -------------------- reading a node --------------------

  function KeyLenAt(b: Bytes, x: nat): nat
    requires x + TOWER_OFF <= |b|
  {
    LoadInt(b, x + KEY_LEN_OFF, 4)
  }

  function ValueLenAt(b: Bytes, x: nat): nat
    requires x + TOWER_OFF <= |b|
  {
    LoadInt(b, x + VALUE_LEN_OFF, 4)
  }

  function HeightAt(b: Bytes, x: nat): nat
    requires x + TOWER_OFF <= |b|
  {
    LoadInt(b, x + HEIGHT_OFF, 4)
  }

  function PrevAt(b: Bytes, x: nat): nat
    requires x + TOWER_OFF <= |b|
  {
    LoadInt(b, x + PREV_OFF, 8)
  }

  function NextAt(b: Bytes, x: nat, level: nat): nat
    requires x + TOWER_OFF + level * 8 + 8 <= |b|
  {
    LoadInt(b, x + TOWER_OFF + level * 8, 8)
  }

  /** The lengths stored in the header stay inside the buffer. */
  predicate Readable(b: Bytes, x: nat) {
    x + TOWER_OFF <= |b| && x + KvDataOff(HeightAt(b, x)) + KeyLenAt(b, x) + ValueLenAt(b, x) <= |b|
  }

  function KeyAt(b: Bytes, x: nat): Bytes
    requires Readable(b, x)
  {
    var data := x + KvDataOff(HeightAt(b, x));
    b[data..data + KeyLenAt(b, x)]
  }

  function ValueAt(b: Bytes, x: nat): Bytes
    requires Readable(b, x)
  {
    var data := x + KvDataOff(HeightAt(b, x)) + KeyLenAt(b, x);
    b[data..data + ValueLenAt(b, x)]
  }

  /** The bytes at `x` read back as node `n`. */
  ghost predicate Encodes(b: Bytes, x: nat, n: Node) {
    && |n.tower| == n.height + 1
    && x + SizeOf(n) <= |b|
    && KeyLenAt(b, x) == |n.key| && ValueLenAt(b, x) == |n.value| && HeightAt(b, x) == n.height
      && PrevAt(b, x) == n.prev
    && KeyAt(b, x) == n.key && ValueAt(b, x) == n.value
    && forall i :: 0 <= i <= n.height ==> NextAt(b, x, i) == n.tower[i]
  }

  lemma SliceOfSlice(b: Bytes, b': Bytes, x: nat, size: nat, from: nat, to: nat)
    requires x + size <= |b| && x + size <= |b'| && b'[x..x + size] == b[x..x + size]
    requires x <= from <= to <= x + size
    ensures b'[from..to] == b[from..to]
  {
    forall k | from <= k < to ensures b'[k] == b[k] {
      assert b'[x..x + size][k - x] == b[x..x + size][k - x];
    }
  }

  /** Only a node's own bytes matter to it. */
  lemma EncodesFrame(b: Bytes, b': Bytes, x: nat, n: Node)
    requires Encodes(b, x, n)
    requires |b'| == |b| && b'[x..x + SizeOf(n)] == b[x..x + SizeOf(n)]
    ensures Encodes(b', x, n)
  {
    var size := SizeOf(n);
    SliceOfSlice(b, b', x, size, x, x + 4);
    SliceOfSlice(b, b', x, size, x + 4, x + 8);
    SliceOfSlice(b, b', x, size, x + 8, x + 12);
    SliceOfSlice(b, b', x, size, x + 16, x + 24);
    var data := x + KvDataOff(n.height);
    SliceOfSlice(b, b', x, size, data, data + |n.key|);
    SliceOfSlice(b, b', x, size, data + |n.key|, data + |n.key| + |n.value|);
    forall i | 0 <= i <= n.height ensures NextAt(b', x, i) == n.tower[i] {
      SliceOfSlice(b, b', x, size, x + TOWER_OFF + i * 8, x + TOWER_OFF + i * 8 + 8);
    }
  }

  /** Key and value only depend on their bytes and on the header that locates them. */
  lemma DataKept(b: Bytes, b': Bytes, x: nat, n: Node)
    requires Encodes(b, x, n) && |b'| == |b|
    requires KeyLenAt(b', x) == |n.key| && ValueLenAt(b', x) == |n.value| && HeightAt(b', x) == n.height
    requires var data := x + KvDataOff(n.height);
             && b'[data..data + |n.key|] == b[data..data + |n.key|]
             && b'[data + |n.key|..data + |n.key| + |n.value|] == b[data + |n.key|..data + |n.key| + |n.value|]
    ensures Readable(b', x) && KeyAt(b', x) == n.key && ValueAt(b', x) == n.value
  {
    hide LoadInt;
  }

  /** A tower store changes that link and nothing else. */
  lemma EncodesSetNext(b: Bytes, x: nat, n: Node, level: nat, target: nat)
    requires Encodes(b, x, n) && level <= n.height && target < U64_SIZE
    ensures x + TOWER_OFF + level * 8 + 8 <= |b|
    ensures Encodes(Store(b, x + TOWER_OFF + level * 8, LittleEndian(target, 8)), x,
            n.(tower := n.tower[level := target]))
  {
    hide Store, LittleEndian;
    var at, word := x + TOWER_OFF + level * 8, LittleEndian(target, 8);
    var b' := Store(b, at, word);
    StoreElsewhere(b, at, word, x, x + 4);
    StoreElsewhere(b, at, word, x + 4, x + 8);
    StoreElsewhere(b, at, word, x + 8, x + 12);
    StoreElsewhere(b, at, word, x + 16, x + 24);
    var data := x + KvDataOff(n.height);
    StoreElsewhere(b, at, word, data, data + |n.key|);
    StoreElsewhere(b, at, word, data + |n.key|, data + |n.key| + |n.value|);
    DataKept(b, b', x, n);
    forall i | 0 <= i <= n.height ensures NextAt(b', x, i) == n.tower[level := target][i] {
      if i == level {
        LoadWord(b, at, target);
      } else {
        StoreElsewhere(b, at, word, x + TOWER_OFF + i * 8, x + TOWER_OFF + i * 8 + 8);
      }
    }
  }

  /** A back-pointer store changes the back pointer and nothing else. */
  lemma EncodesSetPrev(b: Bytes, x: nat, n: Node, target: nat)
    requires Encodes(b, x, n) && target < U64_SIZE
    ensures Encodes(Store(b, x + PREV_OFF, LittleEndian(target, 8)), x, n.(prev := target))
  {
    hide Store, LittleEndian, KeyAt, ValueAt;
    var at, word := x + PREV_OFF, LittleEndian(target, 8);
    var b' := Store(b, at, word);
    StoreElsewhere(b, at, word, x, x + 4);
    StoreElsewhere(b, at, word, x + 4, x + 8);
    StoreElsewhere(b, at, word, x + 8, x + 12);
    var data := x + KvDataOff(n.height);
    StoreElsewhere(b, at, word, data, data + |n.key|);
    StoreElsewhere(b, at, word, data + |n.key|, data + |n.key| + |n.value|);
    LoadWord(b, at, target);
    DataKept(b, b', x, n);
    forall i | 0 <= i <= n.height ensures NextAt(b', x, i) == n.tower[i] {
      StoreElsewhere(b, at, word, x + TOWER_OFF + i * 8, x + TOWER_OFF + i * 8 + 8);
    }
  }

  // -------------------- writing a node --------------------

  /** The header words, the zeroed tower and the two copies, in the order `alloc_node` writes them. */
  function WriteHeader(b: Bytes, x: nat, keyLen: nat, valueLen: nat, height: nat): (r: Bytes)
    requires x + TOWER_OFF <= |b|
    ensures |r| == |b|
  {
    var b1 := Store(b, x + KEY_LEN_OFF, LittleEndian(keyLen, 4));
    var b2 := Store(b1, x + VALUE_LEN_OFF, LittleEndian(valueLen, 4));
    var b3 := Store(b2, x + HEIGHT_OFF, LittleEndian(height, 4));
    Store(b3, x + PREV_OFF, LittleEndian(0, 8))
  }

  function ZeroTower(b: Bytes, x: nat, levels: nat): (r: Bytes)
    requires x + TOWER_OFF + levels * 8 <= |b|
    ensures |r| == |b|
  {
    if levels == 0 then b
    else Store(ZeroTower(b, x, levels - 1), x + TOWER_OFF + (levels - 1) * 8, LittleEndian(0, 8))
  }

  function WriteNode(b: Bytes, x: nat, key: Bytes, value: Bytes, height: nat): (r: Bytes)
    requires x + NodeSize(key, value, height) <= |b|
    ensures |r| == |b|
  {
    var kv := x + KvDataOff(height);
    var b1 := ZeroTower(WriteHeader(b, x, |key|, |value|, height), x, height + 1);
    Store(Store(b1, kv, key), kv + |key|, value)
  }

  lemma HeaderWritten(b: Bytes, x: nat, keyLen: nat, valueLen: nat, height: nat)
    requires x + TOWER_OFF <= |b| && height < U32_SIZE
    ensures var r := WriteHeader(b, x, keyLen, valueLen, height);
            && KeyLenAt(r, x) == keyLen % U32_SIZE && ValueLenAt(r, x) == valueLen % U32_SIZE
            && HeightAt(r, x) == height && PrevAt(r, x) == 0
            && SameOutside(b, r, x, x + TOWER_OFF)
  {
    var w1, w2, w3, w4 := LittleEndian(keyLen, 4), LittleEndian(valueLen, 4), LittleEndian(height, 4),
      LittleEndian(0, 8);
    var b1 := Store(b, x, w1);
    var b2 := Store(b1, x + 4, w2);
    var b3 := Store(b2, x + 8, w3);
    WordWidths();
    LoadStored(b, x, keyLen, 4);
    StoreElsewhere(b1, x + 4, w2, x, x + 4);
    StoreElsewhere(b2, x + 8, w3, x, x + 4);
    StoreElsewhere(b3, x + 16, w4, x, x + 4);
    LoadStored(b1, x + 4, valueLen, 4);
    StoreElsewhere(b2, x + 8, w3, x + 4, x + 8);
    StoreElsewhere(b3, x + 16, w4, x + 4, x + 8);
    LoadStored(b2, x + 8, height, 4);
    StoreElsewhere(b3, x + 16, w4, x + 8, x + 12);
    LoadStored(b3, x + 16, 0, 8);
    HeaderOutside(b, x, w1, w2, w3, w4);
  }

  lemma HeaderOutside(b: Bytes, x: nat, w1: Bytes, w2: Bytes, w3: Bytes, w4: Bytes)
    requires x + TOWER_OFF <= |b| && |w1| == |w2| == |w3| == 4 && |w4| == 8
    ensures var r := Store(Store(Store(Store(b, x, w1), x + 4, w2), x + 8, w3), x + 16, w4);
            SameOutside(b, r, x, x + TOWER_OFF)
  {
    var b1 := Store(b, x, w1);
    var b2 := Store(b1, x + 4, w2);
    var b3 := Store(b2, x + 8, w3);
    StoreOutside(b, x, w1, x, x + TOWER_OFF);
    StoreOutside(b1, x + 4, w2, x, x + TOWER_OFF);
    StoreOutside(b2, x + 8, w3, x, x + TOWER_OFF);
    StoreOutside(b3, x + 16, w4, x, x + TOWER_OFF);
  }

  lemma {:induction false} TowerZeroed(b: Bytes, x: nat, levels: nat)
    requires x + TOWER_OFF + levels * 8 <= |b|
    ensures var r := ZeroTower(b, x, levels);
            && (forall i :: 0 <= i < levels ==> NextAt(r, x, i) == 0)
            && SameOutside(b, r, x + TOWER_OFF, x + TOWER_OFF + levels * 8)
  {
    if levels > 0 {
      TowerZeroed(b, x, levels - 1);
      var b1, at, word := ZeroTower(b, x, levels - 1), x + TOWER_OFF + (levels - 1) * 8, LittleEndian(0, 8);
      var r := Store(b1, at, word);
      LoadWord(b1, at, 0);
      forall i | 0 <= i < levels - 1 ensures NextAt(r, x, i) == 0 {
        assert NextAt(b1, x, i) == 0;
        StoreElsewhere(b1, at, word, x + TOWER_OFF + i * 8, x + TOWER_OFF + i * 8 + 8);
      }
      StoreOutside(b1, at, word, x + TOWER_OFF, at + 8);
    }
  }

  /** What stands in memory after a node is written, whatever the lengths of its key and value. */
  lemma NodeWritten(b: Bytes, x: nat, key: Bytes, value: Bytes, height: nat)
    requires x + NodeSize(key, value, height) <= |b| && height < MAX_HEIGHT
    ensures var r, kv := WriteNode(b, x, key, value, height), x + KvDataOff(height);
            && KeyLenAt(r, x) == |key| % U32_SIZE && ValueLenAt(r, x) == |value| % U32_SIZE
            && HeightAt(r, x) == height && PrevAt(r, x) == 0
            && (forall i :: 0 <= i <= height ==> NextAt(r, x, i) == 0)
            && r[kv..kv + |key|] == key && r[kv + |key|..kv + |key| + |value|] == value
  {
    hide Store, WriteHeader, ZeroTower, SameOutside;
    var kv := x + KvDataOff(height);
    var b1 := WriteHeader(b, x, |key|, |value|, height);
    var b2 := ZeroTower(b1, x, height + 1);
    var b3 := Store(b2, kv, key);
    var r := Store(b3, kv + |key|, value);
    HeaderWritten(b, x, |key|, |value|, height);
    TowerZeroed(b1, x, height + 1);
    HeaderKept(b1, b2, x, x + TOWER_OFF, kv);
    CopiesLeaveHeader(b2, b3, r, x, kv, key, value, height);
  }

  /** The two copies into the data area leave header and tower alone. */
  lemma CopiesLeaveHeader(b: Bytes, b': Bytes, r: Bytes, x: nat, kv: nat, key: Bytes, value: Bytes, height: nat)
    requires kv == x + KvDataOff(height) && kv + |key| + |value| <= |b|
    requires b' == Store(b, kv, key) && r == Store(b', kv + |key|, value)
    ensures r[kv..kv + |key|] == key && r[kv + |key|..kv + |key| + |value|] == value
    ensures KeyLenAt(r, x) == KeyLenAt(b, x) && ValueLenAt(r, x) == ValueLenAt(b, x)
    ensures HeightAt(r, x) == HeightAt(b, x) && PrevAt(r, x) == PrevAt(b, x)
    ensures forall i {:trigger NextAt(r, x, i)} :: 0 <= i <= height ==> NextAt(r, x, i) == NextAt(b, x, i)
  {
    StoreHere(b, kv, key);
    StoreHere(b', kv + |key|, value);
    StoreElsewhere(b', kv + |key|, value, kv, kv + |key|);
    assert SameOutside(b, r, kv, |b|) by {
      StoreOutside(b, kv, key, kv, |b|);
      StoreOutside(b', kv + |key|, value, kv, |b|);
      OutsideCompose(b, b', r, kv, |b|);
    }
    HeaderKept(b, r, x, kv, |b|);
    forall i | 0 <= i <= height ensures NextAt(r, x, i) == NextAt(b, x, i) {
      SliceKept(b, r, kv, |b|, x + TOWER_OFF + i * 8, x + TOWER_OFF + i * 8 + 8);
    }
  }

  lemma OutsideCompose(a: Bytes, b: Bytes, c: Bytes, lo: nat, hi: nat)
    requires SameOutside(a, b, lo, hi) && SameOutside(b, c, lo, hi)
    ensures SameOutside(a, c, lo, hi)
  {
  }

  lemma OutsideWiden(a: Bytes, b: Bytes, lo: nat, hi: nat, lo': nat, hi': nat)
    requires SameOutside(a, b, lo, hi) && lo' <= lo && hi <= hi'
    ensures SameOutside(a, b, lo', hi')
  {
  }

  lemma HeaderKept(b: Bytes, b': Bytes, x: nat, lo: nat, hi: nat)
    requires SameOutside(b, b', lo, hi) && x + TOWER_OFF <= lo <= |b|
    ensures KeyLenAt(b', x) == KeyLenAt(b, x) && ValueLenAt(b', x) == ValueLenAt(b, x)
    ensures HeightAt(b', x) == HeightAt(b, x) && PrevAt(b', x) == PrevAt(b, x)
  {
    SliceKept(b, b', lo, hi, x, x + 4);
    SliceKept(b, b', lo, hi, x + 4, x + 8);
    SliceKept(b, b', lo, hi, x + 8, x + 12);
    SliceKept(b, b', lo, hi, x + 16, x + 24);
  }

  /** Writing a node touches only its own bytes. */
  lemma WriteNodeOutside(b: Bytes, x: nat, key: Bytes, value: Bytes, height: nat)
    requires x + NodeSize(key, value, height) <= |b| && height < MAX_HEIGHT
    ensures var r := WriteNode(b, x, key, value, height);
            SameOutside(b, r, x, x + NodeSize(key, value, height))
  {
    var kv := x + KvDataOff(height);
    var b1 := WriteHeader(b, x, |key|, |value|, height);
    var b2 := ZeroTower(b1, x, height + 1);
    HeaderWritten(b, x, |key|, |value|, height);
    TowerZeroed(b1, x, height + 1);
    CopiesOutside(b, b1, b2, x, kv, key, value);
  }

  lemma CopiesOutside(b: Bytes, b1: Bytes, b2: Bytes, x: nat, kv: nat, key: Bytes, value: Bytes)
    requires x + TOWER_OFF <= kv && kv + |key| + |value| <= |b|
    requires SameOutside(b, b1, x, x + TOWER_OFF) && SameOutside(b1, b2, x + TOWER_OFF, kv)
    ensures SameOutside(b, Store(Store(b2, kv, key), kv + |key|, value), x, kv + |key| + |value|)
  {
    var b3, hi := Store(b2, kv, key), kv + |key| + |value|;
    StoreOutside(b2, kv, key, x, hi);
    StoreOutside(b3, kv + |key|, value, x, hi);
    OutsideWiden(b, b1, x, x + TOWER_OFF, x, hi);
    OutsideWiden(b1, b2, x + TOWER_OFF, kv, x, hi);
    OutsideCompose(b, b1, b2, x, hi);
    OutsideCompose(b, b2, b3, x, hi);
    OutsideCompose(b, b3, Store(b3, kv + |key|, value), x, hi);
  }

  /** A node whose lengths fit their 32-bit fields reads back exactly, with its links zeroed. */
  lemma WrittenNodeEncodes(b: Bytes, x: nat, key: Bytes, value: Bytes, height: nat)
    requires x + NodeSize(key, value, height) <= |b| && height < MAX_HEIGHT
    requires |key| < U32_SIZE && |value| < U32_SIZE
    ensures Encodes(WriteNode(b, x, key, value, height), x, FreshNode(key, value, height))
  {
    hide WriteNode, LoadInt, Store;
    NodeWritten(b, x, key, value, height);
    SmallRemainder(|key|, U32_SIZE);
    SmallRemainder(|value|, U32_SIZE);
  }

  /** The accessors return the key and value given to `alloc_node` exactly when both lengths fit in 32 bits:
      the header stores truncated lengths. */
  lemma ReadBackIffLengthsFit(b: Bytes, x: nat, key: Bytes, value: Bytes, height: nat)
    requires x + NodeSize(key, value, height) <= |b| && height < MAX_HEIGHT
    ensures var r := WriteNode(b, x, key, value, height);
            && Readable(r, x)
            && (KeyAt(r, x) == key && ValueAt(r, x) == value <==> |key| < U32_SIZE && |value| < U32_SIZE)
  {
    hide WriteNode, LoadInt, Store;
    NodeWritten(b, x, key, value, height);
    if |key| < U32_SIZE && |value| < U32_SIZE {
      WrittenNodeEncodes(b, x, key, value, height);
    } else {
      var r := WriteNode(b, x, key, value, height);
      assert |KeyAt(r, x)| == |key| % U32_SIZE < U32_SIZE && |ValueAt(r, x)| == |value| % U32_SIZE < U32_SIZE;
    }
  }
}
