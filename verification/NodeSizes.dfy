/** How many arena bytes a node takes. */
module NodeSizes {
  import opened ByteStrings

  /** Size of the node header: the tower starts here. */
  const TOWER_OFF := 24

  /** Rust's `(size + 7) & !7`. */
  function RoundUp(size: nat): nat {
    (size + 7) / 8 * 8
  }

  /** Offset, within a node, of its key bytes. */
  function KvDataOff(height: nat): nat {
    TOWER_OFF + (height + 1) * 8
  }

  function NodeSize(key: Bytes, value: Bytes, height: nat): nat {
    KvDataOff(height) + |key| + |value|
  }

  /** Arena bytes taken by a node. */
  function NodeBytes(key: Bytes, value: Bytes, height: nat): nat {
    RoundUp(NodeSize(key, value, height))
  }

  lemma RoundedUp(size: nat)
    ensures size <= RoundUp(size) < size + 8 && RoundUp(size) % 8 == 0
  {
  }

  /** The arena bytes of a node: the least multiple of 8 that holds a 24-byte header, one word per level of its tower
      and
      the two byte strings. */
  lemma SizeMeans(key: Bytes, value: Bytes, height: nat)
    ensures var exact := 24 + 8 * (height + 1) + |key| + |value|;
            && NodeSize(key, value, height) == exact
            && exact <= NodeBytes(key, value, height) < exact + 8 && NodeBytes(key, value, height) % 8 == 0
  {
  }
}
