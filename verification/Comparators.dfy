/** The skiplist's pluggable key order. */
module Comparators {
  import opened ByteStrings

  type Comparator = (Bytes, Bytes) -> Order

  /** What the skiplist asks of a comparator: a strict total order in which only identical keys are Equal. */
  ghost predicate TotalOrder(cmp: Comparator) {
    && (forall a, b {:trigger cmp(a, b)} :: cmp(a, b) == Equal <==> a == b)
    && (forall a, b {:trigger cmp(a, b)} :: cmp(b, a) == Reverse(cmp(a, b)))
    && (forall a, b, c {:trigger cmp(a, b), cmp(b, c)} :: cmp(a, b) == Less && cmp(b, c) == Less ==> cmp(a, c) == Less)
  }

  /** `BytewiseComparator` qualifies. */
  lemma BytewiseIsTotalOrder()
    ensures TotalOrder(Lex) && forall a, b :: Lex(a, b) == Less <==> Precedes(a, b)
  {
    forall a, b ensures Lex(a, b) == Less <==> Precedes(a, b) {
      LexMeans(a, b);
    }
    forall a, b ensures (Lex(a, b) == Equal <==> a == b) && Lex(b, a) == Reverse(Lex(a, b)) {
      LexEqual(a, b);
      LexFlip(a, b);
    }
    forall a, b, c | Lex(a, b) == Less && Lex(b, c) == Less ensures Lex(a, c) == Less {
      LexTransitive(a, b, c);
    }
  }
}
