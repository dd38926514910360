/** InternalKey = user key | complemented sequence number (7 bytes, big-endian) | value type (1 byte). */
module InternalKeys {
  import opened ByteStrings
  import opened Comparators

  const MAX_SEQUENCE := 0xFF_FFFF_FFFF_FFFF
  const TRAILER_LEN := 8

  datatype ValueType = Value | Delete

  function TypeByte(t: ValueType): Byte {
    if t == Value then 1 else 0
  }

  /** Encode; a sequence above MAX_SEQUENCE underflows in the subtraction, so callers must exclude it. */
  function New(key: Bytes, sequence: nat, valueType: ValueType): Bytes
    requires sequence <= MAX_SEQUENCE
  {
    key + BigEndian(MAX_SEQUENCE - sequence, 8)[1..] + [TypeByte(valueType)]
  }

  /** The search key for the newest version of `key`. */
  function NewMax(key: Bytes): Bytes {
    New(key, MAX_SEQUENCE, Value)
  }

  /** Everything but the last eight bytes; empty for shorter strings. */
  function UserKey(encoded: Bytes): Bytes {
    if |encoded| < TRAILER_LEN then [] else encoded[..|encoded| - TRAILER_LEN]
  }

  /** Slicing off the trailer panics on strings shorter than it. */
  function Sequence(encoded: Bytes): int
    requires |encoded| >= TRAILER_LEN
  {
    MAX_SEQUENCE - FromBigEndian([0] + encoded[|encoded| - 8..|encoded| - 1])
  }

  function TypeOf(encoded: Bytes): ValueType {
    if encoded != [] && encoded[|encoded| - 1] == 1 then Value else Delete
  }

  /** `InternalKey`'s own `Ord`: user key, then newest first; the type byte is ignored. */
  function CompareInternal(a: Bytes, b: Bytes): Order
    requires |a| >= TRAILER_LEN && |b| >= TRAILER_LEN
  {
    match Lex(UserKey(a), UserKey(b))
    case Equal => CompareInt(Sequence(b), Sequence(a))
    case other => other
  }

  function SplitInternal(key: Bytes): (Bytes, Bytes) {
    if |key| < TRAILER_LEN then (key, [])
    else (key[..|key| - TRAILER_LEN], key[|key| - TRAILER_LEN..])
  }

  /** `InternalKeyComparator`: user key, then the raw trailer. */
  function CompareKey(lhs: Bytes, rhs: Bytes): Order {
    match Lex(SplitInternal(lhs).0, SplitInternal(rhs).0)
    case Equal => Lex(SplitInternal(lhs).1, SplitInternal(rhs).1)
    case other => other
  }

  predicate SameKey(lhs: Bytes, rhs: Bytes) {
    SplitInternal(lhs).0 == SplitInternal(rhs).0
  }

  // -------------------- encoding --------------------

  lemma TrailerOf(key: Bytes, sequence: nat, valueType: ValueType)
    requires sequence <= MAX_SEQUENCE
    ensures New(key, sequence, valueType) == key + (BigEndian(MAX_SEQUENCE - sequence, 7) + [TypeByte(valueType)])
    ensures SplitInternal(New(key, sequence, valueType)) ==
            (key, BigEndian(MAX_SEQUENCE - sequence, 7) + [TypeByte(valueType)])
  {
    BigEndianTail(MAX_SEQUENCE - sequence, 8);
  }

  lemma LeadingZero(bs: Bytes)
    ensures FromBigEndian([0] + bs) == FromBigEndian(bs)
    decreases |bs|
  {
    if bs == [] {
      assert [0] + bs == [0];
      assert FromBigEndian([0][..0]) == 0;
    } else {
      LeadingZero(bs[..|bs| - 1]);
      assert ([0] + bs)[..|bs|] == [0] + bs[..|bs| - 1];
    }
  }

  /** Decoding an encoded key gives back exactly its three parts. */
  lemma DecodeNew(key: Bytes, sequence: nat, valueType: ValueType)
    requires sequence <= MAX_SEQUENCE
    ensures var e := New(key, sequence, valueType);
            && |e| == |key| + 8
            && UserKey(e) == key && Sequence(e) == sequence && TypeOf(e) == valueType
  {
    TrailerOf(key, sequence, valueType);
    var e := New(key, sequence, valueType);
    var body := BigEndian(MAX_SEQUENCE - sequence, 7);
    assert e[|e| - 8..|e| - 1] == body;
    LeadingZero(body);
    WordWidths();
    BigEndianRoundTrip(MAX_SEQUENCE - sequence, 7);
    assert UserKey(e) == key;
  }

  /** Every string with a full trailer and a legal type byte is the encoding of the parts it decodes to. */
  lemma NewDecode(e: Bytes)
    requires |e| >= TRAILER_LEN && e[|e| - 1] <= 1
    ensures 0 <= Sequence(e) <= MAX_SEQUENCE
    ensures New(UserKey(e), Sequence(e), TypeOf(e)) == e
  {
    var body := e[|e| - 8..|e| - 1];
    LeadingZero(body);
    WordWidths();
    FromBigEndianRoundTrip(body);
    BigEndianTail(MAX_SEQUENCE - Sequence(e), 8);
    assert e == UserKey(e) + body + [e[|e| - 1]];
  }

  /** Any string with a full trailer: it is the encoding of what it decodes to up to the type byte, of which 1 means
      Value
      and everything else Delete. */
  lemma DecodeAny(e: Bytes)
    requires |e| >= TRAILER_LEN
    ensures 0 <= Sequence(e) <= MAX_SEQUENCE && |New(UserKey(e), Sequence(e), TypeOf(e))| == |e|
    ensures New(UserKey(e), Sequence(e), TypeOf(e))[..|e| - 1] == e[..|e| - 1]
    ensures New(UserKey(e), Sequence(e), TypeOf(e))[|e| - 1] == (if e[|e| - 1] == 1 then 1 else 0)
    ensures TypeOf(e) == Value <==> e[|e| - 1] == 1
  {
    var body := e[|e| - 8..|e| - 1];
    LeadingZero(body);
    WordWidths();
    FromBigEndianRoundTrip(body);
    BigEndianTail(MAX_SEQUENCE - Sequence(e), 8);
    assert e[..|e| - 1] == UserKey(e) + body;
  }

  // -------------------- order --------------------

  /** The comparator is a total order on all byte strings, including those shorter than a trailer. */
  lemma CompareKeyIsTotalOrder()
    ensures TotalOrder(CompareKey)
  {
    forall a, b
      ensures CompareKey(a, b) == Equal <==> a == b
      ensures CompareKey(b, a) == Reverse(CompareKey(a, b))
    {
      var (au, at) := SplitInternal(a);
      var (bu, bt) := SplitInternal(b);
      LexEqual(au, bu);
      LexEqual(at, bt);
      LexFlip(au, bu);
      LexFlip(at, bt);
      assert a == au + at && b == bu + bt;
    }
    forall a, b, c | CompareKey(a, b) == Less && CompareKey(b, c) == Less
      ensures CompareKey(a, c) == Less
    {
      CompareKeyTransitive(a, b, c);
    }
  }

  lemma CompareKeyTransitive(a: Bytes, b: Bytes, c: Bytes)
    requires CompareKey(a, b) == Less && CompareKey(b, c) == Less
    ensures CompareKey(a, c) == Less
  {
    var (au, at) := SplitInternal(a);
    var (bu, bt) := SplitInternal(b);
    var (cu, ct) := SplitInternal(c);
    LexEqual(au, bu);
    LexEqual(bu, cu);
    if au == bu && bu == cu {
      LexEqual(au, cu);
      LexTransitive(at, bt, ct);
    } else if au != bu && bu != cu {
      LexTransitive(au, bu, cu);
    }
  }

  /** The order meant by the encoding: user key ascending, sequence descending, Delete before Value. */
  function VersionOrder(k1: Bytes, s1: nat, t1: ValueType, k2: Bytes, s2: nat, t2: ValueType): Order {
    if k1 != k2 then Lex(k1, k2)
    else if s1 != s2 then CompareInt(s2, s1)
    else if t1 == t2 then Equal
    else if t1 == Delete then Less else Greater
  }

  /** The byte comparator on encoded keys is exactly the version order. */
  lemma EncodingPreservesOrder(k1: Bytes, s1: nat, t1: ValueType, k2: Bytes, s2: nat, t2: ValueType)
    requires s1 <= MAX_SEQUENCE && s2 <= MAX_SEQUENCE
    ensures CompareKey(New(k1, s1, t1), New(k2, s2, t2)) == VersionOrder(k1, s1, t1, k2, s2, t2)
  {
    TrailerOf(k1, s1, t1);
    TrailerOf(k2, s2, t2);
    LexEqual(k1, k2);
    WordWidths();
    var c1, c2 := MAX_SEQUENCE - s1, MAX_SEQUENCE - s2;
    BigEndianOrder(c1, c2, 7);
    LexSnoc(BigEndian(c1, 7), BigEndian(c2, 7), TypeByte(t1), TypeByte(t2));
  }

  /** The same order spelled out: user keys as byte slices ascending, sequences descending, Delete before Value. */
  lemma EncodedOrder(k1: Bytes, s1: nat, t1: ValueType, k2: Bytes, s2: nat, t2: ValueType)
    requires s1 <= MAX_SEQUENCE && s2 <= MAX_SEQUENCE
    ensures CompareKey(New(k1, s1, t1), New(k2, s2, t2)) == Less
            <==> Precedes(k1, k2) || (k1 == k2 && (s1 > s2 || (s1 == s2 && t1 == Delete && t2 == Value)))
    ensures CompareKey(New(k1, s1, t1), New(k2, s2, t2)) == Equal <==> k1 == k2 && s1 == s2 && t1 == t2
  {
    EncodingPreservesOrder(k1, s1, t1, k2, s2, t2);
    LexMeans(k1, k2);
    hide Precedes;
  }

  /** Any string splits into its last eight bytes and what comes before; shorter ones are all user key. */
  lemma SplitMeans(key: Bytes)
    ensures SplitInternal(key).0 + SplitInternal(key).1 == key
    ensures |SplitInternal(key).1| == if |key| < 8 then 0 else 8
    ensures UserKey(key) == if |key| < 8 then [] else SplitInternal(key).0
  {
  }

  /** The comparator on arbitrary strings: the parts before the last eight bytes decide as slices, then the rest does.
      */
  lemma CompareKeyMeans(a: Bytes, b: Bytes)
    ensures var (au, at), (bu, bt) := SplitInternal(a), SplitInternal(b);
            && (CompareKey(a, b) == Less <==> Precedes(au, bu) || (au == bu && Precedes(at, bt)))
            && (CompareKey(a, b) == Equal <==> a == b) && (SameKey(a, b) <==> au == bu)
  {
    var (au, at) := SplitInternal(a);
    var (bu, bt) := SplitInternal(b);
    LexMeans(au, bu);
    LexMeans(at, bt);
    SplitMeans(a);
    SplitMeans(b);
    hide Precedes, SplitInternal, Lex;
  }

  /** `Ord` and the comparator agree exactly unless two keys differ in nothing but the type byte. */
  lemma OrdAgreesUnlessOnlyTypeDiffers(k1: Bytes, s1: nat, t1: ValueType, k2: Bytes, s2: nat, t2: ValueType)
    requires s1 <= MAX_SEQUENCE && s2 <= MAX_SEQUENCE
    ensures |New(k1, s1, t1)| >= TRAILER_LEN && |New(k2, s2, t2)| >= TRAILER_LEN
    ensures CompareInternal(New(k1, s1, t1), New(k2, s2, t2)) == CompareKey(New(k1, s1, t1), New(k2, s2, t2))
            <==> !(k1 == k2 && s1 == s2 && t1 != t2)
  {
    DecodeNew(k1, s1, t1);
    DecodeNew(k2, s2, t2);
    LexEqual(k1, k2);
    EncodingPreservesOrder(k1, s1, t1, k2, s2, t2);
  }

  /** `Ord` itself: versions of a key compare by sequence alone, newest first, and are equal when only the type
      differs. */
  lemma OrdMeans(k1: Bytes, s1: nat, t1: ValueType, k2: Bytes, s2: nat, t2: ValueType)
    requires s1 <= MAX_SEQUENCE && s2 <= MAX_SEQUENCE
    ensures |New(k1, s1, t1)| >= TRAILER_LEN && |New(k2, s2, t2)| >= TRAILER_LEN
    ensures CompareInternal(New(k1, s1, t1), New(k2, s2, t2)) == Less <==> Precedes(k1, k2) || (k1 == k2 && s1 > s2)
    ensures CompareInternal(New(k1, s1, t1), New(k2, s2, t2)) == Equal <==> k1 == k2 && s1 == s2
  {
    DecodeNew(k1, s1, t1);
    DecodeNew(k2, s2, t2);
    LexMeans(k1, k2);
    hide Precedes, New, UserKey, Sequence;
  }

  /** The search key sorts at or before a version of its user key unless that version is a tombstone at MAX_SEQUENCE. */
  lemma SearchKeyBoundary(key: Bytes, sequence: nat, valueType: ValueType)
    requires sequence <= MAX_SEQUENCE
    ensures CompareKey(New(key, sequence, valueType), NewMax(key)) == Less
            <==> sequence == MAX_SEQUENCE && valueType == Delete
  {
    EncodingPreservesOrder(key, sequence, valueType, key, MAX_SEQUENCE, Value);
  }

  /** `same_key` on encoded keys is equality of user keys, whatever the versions. */
  lemma SameKeyIsSameUserKey(k1: Bytes, s1: nat, t1: ValueType, k2: Bytes, s2: nat, t2: ValueType)
    requires s1 <= MAX_SEQUENCE && s2 <= MAX_SEQUENCE
    ensures SameKey(New(k1, s1, t1), New(k2, s2, t2)) <==> k1 == k2
  {
    TrailerOf(k1, s1, t1);
    TrailerOf(k2, s2, t2);
  }
}
