/** Byte strings, their lexicographic order (Rust's `Ord` on `[u8]`), and fixed-width integers in bytes. */
module ByteStrings {

  type Byte = x: int | 0 <= x < 256

  type Bytes = seq<Byte>

  datatype Order = Less | Equal | Greater

  datatype Option<+T> = None | Some(value: T)

  const U32_SIZE := 0x1_0000_0000
  const U64_SIZE := 0x1_0000_0000_0000_0000

  /** The largest arena the allocator accepts: `isize::MAX`, less what rounding up to the alignment of 8 could add. */
  const MAX_CAPACITY := 0x7FFF_FFFF_FFFF_FFF8

  function CompareInt(a: int, b: int): Order {
    if a < b then Less else if a > b then Greater else Equal
  }

  function Reverse(o: Order): Order {
    match o
    case Less => Greater
    case Equal => Equal
    case Greater => Less
  }

  // -------------------- lexicographic order --------------------

  function Lex(a: Bytes, b: Bytes): Order {
    if a == [] && b == [] then Equal
    else if a == [] then Less
    else if b == [] then Greater
    else if a[0] != b[0] then CompareInt(a[0], b[0])
    else Lex(a[1..], b[1..])
  }

  lemma {:induction false} LexEqual(a: Bytes, b: Bytes)
    ensures Lex(a, b) == Equal <==> a == b
  {
    if a != [] && b != [] {
      LexEqual(a[1..], b[1..]);
      assert a == [a[0]] + a[1..] && b == [b[0]] + b[1..];
    }
  }

  lemma {:induction false} LexFlip(a: Bytes, b: Bytes)
    ensures Lex(b, a) == Reverse(Lex(a, b))
  {
    if a != [] && b != [] {
      LexFlip(a[1..], b[1..]);
    }
  }

  lemma {:induction false} LexTransitive(a: Bytes, b: Bytes, c: Bytes)
    requires Lex(a, b) == Less && Lex(b, c) == Less
    ensures Lex(a, c) == Less
  {
    if a != [] && a[0] == b[0] == c[0] {
      LexTransitive(a[1..], b[1..], c[1..]);
    }
  }

  /** On strings of equal length, the last byte decides only when all the others agree. */
  lemma {:induction false} LexSnoc(a: Bytes, b: Bytes, x: Byte, y: Byte)
    requires |a| == |b|
    ensures Lex(a + [x], b + [y]) == if Lex(a, b) == Equal then CompareInt(x, y) else Lex(a, b)
  {
    var p, q := a + [x], b + [y];
    if a == [] {
      assert p[1..] == [] && q[1..] == [];
    } else {
      assert p[1..] == a[1..] + [x] && q[1..] == b[1..] + [y];
      LexSnoc(a[1..], b[1..], x, y);
    }
  }

  /** The order of slices, said without recursion: up to some position the strings agree, and there the first one ends
      or has the smaller byte. */
  ghost predicate Precedes(a: Bytes, b: Bytes) {
    exists n: nat :: PrecedesAt(a, b, n)
  }

  ghost predicate PrecedesAt(a: Bytes, b: Bytes, n: nat) {
    n <= |a| && n < |b| && a[..n] == b[..n] && (n == |a| || a[n] < b[n])
  }

  /** `Lex` is the order of slices: a proper prefix comes first, else the first difference decides. */
  lemma {:induction false} LexMeans(a: Bytes, b: Bytes)
    ensures Lex(a, b) == Less <==> Precedes(a, b)
    ensures Lex(a, b) == Greater <==> Precedes(b, a)
    ensures Lex(a, b) == Equal <==> a == b
  {
    LexLessMeans(a, b);
    LexLessMeans(b, a);
    LexFlip(a, b);
    LexEqual(a, b);
  }

  lemma {:induction false} LexLessMeans(a: Bytes, b: Bytes)
    ensures Lex(a, b) == Less <==> Precedes(a, b)
  {
    if b != [] && (a == [] || a[0] != b[0]) {
      if Lex(a, b) == Less {
        assert PrecedesAt(a, b, 0);
      } else {
        forall n: nat ensures !PrecedesAt(a, b, n) {
          if n > 0 && n <= |a| && n < |b| {
            assert a[..n][0] == a[0] && b[..n][0] == b[0];
          }
        }
      }
    } else if b != [] {
      LexLessMeans(a[1..], b[1..]);
      forall n: nat ensures PrecedesAt(a, b, n + 1) <==> PrecedesAt(a[1..], b[1..], n) {
        PrecedesTail(a, b, n);
      }
      assert !PrecedesAt(a, b, 0);
      if Precedes(a, b) {
        var n: nat :| PrecedesAt(a, b, n);
        assert PrecedesAt(a[1..], b[1..], n - 1);
      }
      if Precedes(a[1..], b[1..]) {
        var n: nat :| PrecedesAt(a[1..], b[1..], n);
        assert PrecedesAt(a, b, n + 1);
      }
    }
  }

  lemma PrecedesTail(a: Bytes, b: Bytes, n: nat)
    requires a != [] && b != [] && a[0] == b[0]
    ensures PrecedesAt(a, b, n + 1) <==> PrecedesAt(a[1..], b[1..], n)
  {
    if n + 1 <= |a| && n + 1 < |b| {
      assert a[..n + 1] == [a[0]] + a[1..][..n] && b[..n + 1] == [b[0]] + b[1..][..n];
      assert a[1..][..n] == a[..n + 1][1..] && b[1..][..n] == b[..n + 1][1..];
    }
  }

  // -------------------- big-endian integers --------------------

  /** The low `n` bytes of `v`, most significant first. */
  function BigEndian(v: nat, n: nat): (r: Bytes)
    ensures |r| == n
  {
    if n == 0 then [] else BigEndian(v / 256, n - 1) + [v % 256]
  }

  function FromBigEndian(bs: Bytes): nat {
    if bs == [] then 0 else 256 * FromBigEndian(bs[..|bs| - 1]) + bs[|bs| - 1]
  }

  function Power256(n: nat): (r: nat)
    ensures r > 0
  {
    if n == 0 then 1 else 256 * Power256(n - 1)
  }

  lemma {:induction false} BigEndianRoundTrip(v: nat, n: nat)
    requires v < Power256(n)
    ensures FromBigEndian(BigEndian(v, n)) == v
  {
    if n > 0 {
      BigEndianRoundTrip(v / 256, n - 1);
      assert BigEndian(v, n)[..n - 1] == BigEndian(v / 256, n - 1);
    }
  }

  lemma {:induction false} FromBigEndianRoundTrip(bs: Bytes)
    ensures FromBigEndian(bs) < Power256(|bs|)
    ensures BigEndian(FromBigEndian(bs), |bs|) == bs
  {
    if bs != [] {
      var front := bs[..|bs| - 1];
      FromBigEndianRoundTrip(front);
      assert FromBigEndian(bs) / 256 == FromBigEndian(front);
      assert bs == front + [bs[|bs| - 1]];
    }
  }

  /** Dropping the most significant byte leaves the narrower encoding. */
  lemma {:induction false} BigEndianTail(v: nat, n: nat)
    requires n > 0
    ensures BigEndian(v, n)[1..] == BigEndian(v, n - 1)
  {
    if n > 1 {
      BigEndianTail(v / 256, n - 1);
      assert BigEndian(v, n)[1..] == BigEndian(v / 256, n - 1)[1..] + [v % 256];
    }
  }

  /** Lexicographic order of big-endian encodings is numeric order. */
  lemma {:induction false} BigEndianOrder(v: nat, w: nat, n: nat)
    requires v < Power256(n) && w < Power256(n)
    ensures Lex(BigEndian(v, n), BigEndian(w, n)) == CompareInt(v, w)
  {
    if n > 0 {
      BigEndianOrder(v / 256, w / 256, n - 1);
      LexSnoc(BigEndian(v / 256, n - 1), BigEndian(w / 256, n - 1), v % 256, w % 256);
    }
  }

  // -------------------- little-endian machine words --------------------

  /** The low `n` bytes of `v`, least significant first: an integer store of width `n`. */
  function LittleEndian(v: nat, n: nat): (r: Bytes)
    ensures |r| == n
  {
    if n == 0 then [] else [v % 256] + LittleEndian(v / 256, n - 1)
  }

  function FromLittleEndian(bs: Bytes): nat {
    if bs == [] then 0 else bs[0] + 256 * FromLittleEndian(bs[1..])
  }

  /** A load after a store of width `n` returns the value truncated to that width. */
  lemma {:induction false} LittleEndianTruncates(v: nat, n: nat)
    ensures FromLittleEndian(LittleEndian(v, n)) == v % Power256(n)
  {
    if n > 0 {
      LittleEndianTruncates(v / 256, n - 1);
      assert LittleEndian(v, n)[1..] == LittleEndian(v / 256, n - 1);
      DivModSplit(v, Power256(n - 1));
    }
  }

  lemma DivModSplit(v: nat, p: nat)
    requires p > 0
    ensures v % (256 * p) == v % 256 + 256 * ((v / 256) % p)
  {
    var q := v / 256;
    var a, b := q / p, q % p;
    assert q == p * a + b;
    assert v == 256 * q + v % 256;
    assert v == (256 * p) * a + (256 * b + v % 256);
    ModOfSum(256 * p, a, 256 * b + v % 256);
  }

  lemma ModOfSum(m: nat, a: nat, r: nat)
    requires r < m
    ensures (m * a + r) % m == r
  {
    var q := (m * a + r) / m;
    RemainderUnique(m, a, r, q, (m * a + r) % m);
  }

  lemma RemainderUnique(m: nat, a: int, r: int, q: int, s: int)
    requires 0 <= r < m && 0 <= s < m
    requires m * a + r == m * q + s
    ensures r == s
  {
    assert m * (a - q) == s - r;
    if a - q >= 1 {
      ProductAtLeast(m, a - q);
    } else if q - a >= 1 {
      ProductAtLeast(m, q - a);
    }
  }

  lemma ProductAtLeast(m: nat, d: int)
    requires d >= 1
    ensures m * d >= m
  {
  }

  lemma WordWidths()
    ensures Power256(4) == U32_SIZE && Power256(7) == 0x100_0000_0000_0000 && Power256(8) == U64_SIZE
  {
    assert Power256(2) == 0x1_0000;
    assert Power256(4) == U32_SIZE;
    assert Power256(6) == 0x1_0000_0000_0000;
  }
}
