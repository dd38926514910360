/** The sequential specification of the skiplist: an insert-if-absent sorted map. */
module MapSpec {
  import opened ByteStrings
  import opened Comparators

  type Entry = (Bytes, Bytes)

  /** `put` never overwrites. */
  function Insert(m: map<Bytes, Bytes>, key: Bytes, value: Bytes): map<Bytes, Bytes> {
    if key in m then m else m[key := value]
  }

  /** `put` reports back a rejected write, and nothing for a new key or a repeated value. */
  function InsertAnswer(m: map<Bytes, Bytes>, key: Bytes, value: Bytes): Option<Entry> {
    if key in m && m[key] != value then Some((key, value)) else None
  }

  /** What a put promises, in terms of the map it leaves: nothing is reported if and only if the key now has this value,
      and otherwise the rejected pair is; no other key changes, and no key that was there. */
  lemma InsertMeans(m: map<Bytes, Bytes>, key: Bytes, value: Bytes)
    ensures var m' := Insert(m, key, value);
            && key in m' && (InsertAnswer(m, key, value) == None <==> m'[key] == value)
            && (InsertAnswer(m, key, value) != None ==> InsertAnswer(m, key, value) == Some((key, value)))
            && m'.Keys == m.Keys + {key} && (forall k :: k in m ==> m'[k] == m[k]) && (key !in m ==> m'[key] == value)
  {
  }

  /** The keys a seek may return. */
  predicate Wanted(cmp: Comparator, key: Bytes, less: bool, allowEqual: bool, k: Bytes) {
    (allowEqual && k == key) || cmp(k, key) == if less then Less else Greater
  }

  /** `r` is the wanted entry closest to `key`, or None when no entry is wanted. */
  ghost predicate Nearest(cmp: Comparator, m: map<Bytes, Bytes>, key: Bytes, less: bool, allowEqual: bool,
      r: Option<Entry>) {
    match r
    case None => forall k :: k in m ==> !Wanted(cmp, key, less, allowEqual, k)
    case Some((k, v)) =>
      && k in m && m[k] == v && Wanted(cmp, key, less, allowEqual, k)
      && forall c :: c in m && Wanted(cmp, key, less, allowEqual, c) ==>
           c == k || cmp(c, k) == if less then Less else Greater
  }

  /** The four kinds of seek, spelled out: the greatest key below, or at or below, the given one; the least key above,
      or
      at or above it; None when there is no such key. */
  lemma SeekModes(cmp: Comparator, m: map<Bytes, Bytes>, key: Bytes, k: Bytes)
    requires TotalOrder(cmp) && k in m
    ensures Nearest(cmp, m, key, true, false, Some((k, m[k])))
            <==> cmp(k, key) == Less && forall c :: c in m && cmp(c, key) == Less ==> cmp(c, k) != Greater
    ensures Nearest(cmp, m, key, true, true, Some((k, m[k])))
            <==> cmp(k, key) != Greater && forall c :: c in m && cmp(c, key) != Greater ==> cmp(c, k) != Greater
    ensures Nearest(cmp, m, key, false, false, Some((k, m[k])))
            <==> cmp(k, key) == Greater && forall c :: c in m && cmp(c, key) == Greater ==> cmp(c, k) != Less
    ensures Nearest(cmp, m, key, false, true, Some((k, m[k])))
            <==> cmp(k, key) != Less && forall c :: c in m && cmp(c, key) != Less ==> cmp(c, k) != Less
  {
  }

  lemma SeekNothing(cmp: Comparator, m: map<Bytes, Bytes>, key: Bytes)
    requires TotalOrder(cmp)
    ensures Nearest(cmp, m, key, true, false, None) <==> forall c :: c in m ==> cmp(c, key) != Less
    ensures Nearest(cmp, m, key, true, true, None) <==> forall c :: c in m ==> cmp(c, key) == Greater
    ensures Nearest(cmp, m, key, false, false, None) <==> forall c :: c in m ==> cmp(c, key) != Greater
    ensures Nearest(cmp, m, key, false, true, None) <==> forall c :: c in m ==> cmp(c, key) == Less
  {
    assert forall c {:trigger cmp(c, key)} :: cmp(c, key) == Equal <==> c == key;
    assert cmp(key, key) == Equal;
  }

  /** `r` is the entry with the greatest key, or None for the empty map. */
  ghost predicate Greatest(cmp: Comparator, m: map<Bytes, Bytes>, r: Option<Entry>) {
    match r
    case None => m == map[]
    case Some((k, v)) => k in m && m[k] == v && forall c :: c in m ==> c == k || cmp(c, k) == Less
  }

  /** A seek has one right answer. */
  lemma NearestUnique(cmp: Comparator, m: map<Bytes, Bytes>, key: Bytes, less: bool, allowEqual: bool,
      r1: Option<Entry>, r2: Option<Entry>)
    requires TotalOrder(cmp)
    requires Nearest(cmp, m, key, less, allowEqual, r1) && Nearest(cmp, m, key, less, allowEqual, r2)
    ensures r1 == r2
  {
    assert r1.Some? && r2.Some? ==> cmp(r2.value.0, r1.value.0) == Reverse(cmp(r1.value.0, r2.value.0));
  }

  /** `r` is the entry with the least key, or None for the empty map. */
  ghost predicate Least(cmp: Comparator, m: map<Bytes, Bytes>, r: Option<Entry>) {
    match r
    case None => m == map[]
    case Some((k, v)) => k in m && m[k] == v && forall c :: c in m ==> c == k || cmp(c, k) == Greater
  }

  // -------------------- calls --------------------

  datatype Call =
    | Put(key: Bytes, value: Bytes)
    | FindNear(key: Bytes, less: bool, allowEqual: bool)
    | LowerBound(key: Bytes)
    | FindLast

  datatype Answer =
    | PutAnswer(rejected: Option<Entry>)
    | SeekAnswer(found: Option<Entry>)

  /** The effect of a call on the map: only puts change it. */
  function Effect(m: map<Bytes, Bytes>, call: Call): map<Bytes, Bytes> {
    if call.Put? then Insert(m, call.key, call.value) else m
  }

  /** What a call must answer when performed alone on `m`. */
  ghost predicate Legal(cmp: Comparator, m: map<Bytes, Bytes>, call: Call, answer: Answer) {
    match call
    case Put(key, value) => answer == PutAnswer(InsertAnswer(m, key, value))
    case FindNear(key, less, allowEqual) => answer.SeekAnswer? && Nearest(cmp, m, key, less, allowEqual, answer.found)
    case LowerBound(key) => answer.SeekAnswer? && Nearest(cmp, m, key, false, true, answer.found)
    case FindLast => answer.SeekAnswer? && Greatest(cmp, m, answer.found)
  }

  /** A call has one legal answer. */
  lemma LegalIsUnique(cmp: Comparator, m: map<Bytes, Bytes>, call: Call, a1: Answer, a2: Answer)
    requires TotalOrder(cmp) && Legal(cmp, m, call, a1) && Legal(cmp, m, call, a2)
    ensures a1 == a2
  {
    match call
    case Put(_, _) =>
    case FindNear(key, less, allowEqual) => NearestUnique(cmp, m, key, less, allowEqual, a1.found, a2.found);
    case LowerBound(key) => NearestUnique(cmp, m, key, false, true, a1.found, a2.found);
    case FindLast => GreatestUnique(cmp, m, a1.found, a2.found);
  }

  lemma GreatestUnique(cmp: Comparator, m: map<Bytes, Bytes>, r1: Option<Entry>, r2: Option<Entry>)
    requires TotalOrder(cmp) && Greatest(cmp, m, r1) && Greatest(cmp, m, r2)
    ensures r1 == r2
  {
    assert r1.Some? && r2.Some? ==> cmp(r2.value.0, r1.value.0) == Reverse(cmp(r1.value.0, r2.value.0));
  }

  // -------------------- iteration order --------------------

  ghost predicate Ascending(cmp: Comparator, es: seq<Entry>) {
    forall a, b :: 0 <= a < b < |es| ==> cmp(es[a].0, es[b].0) == Less
  }

  /** `es` lists the entries of the map in key order, each once. */
  ghost predicate Listing(cmp: Comparator, m: map<Bytes, Bytes>, es: seq<Entry>) {
    && Ascending(cmp, es)
    && (forall e :: e in es ==> e.0 in m && m[e.0] == e.1)
    && (forall k :: k in m ==> (k, m[k]) in es)
  }

  /** A map has one listing. */
  lemma {:induction false} ListingUnique(cmp: Comparator, m: map<Bytes, Bytes>, es1: seq<Entry>, es2: seq<Entry>)
    requires TotalOrder(cmp) && Listing(cmp, m, es1) && Listing(cmp, m, es2)
    ensures es1 == es2
  {
    hide *;
    ListingEmptyIff(cmp, m, es1);
    ListingEmptyIff(cmp, m, es2);
    if es1 != [] {
      HeadsAgree(cmp, m, es1, es2);
      var e, m' := es1[0], m - {es1[0].0};
      ListingTail(cmp, m, es1);
      ListingTail(cmp, m, es2);
      ListingUnique(cmp, m', es1[1..], es2[1..]);
      assert es1 == [e] + es1[1..] && es2 == [e] + es2[1..];
    }
  }

  lemma ListingEmptyIff(cmp: Comparator, m: map<Bytes, Bytes>, es: seq<Entry>)
    requires Listing(cmp, m, es)
    ensures es == [] <==> m == map[]
  {
    if es != [] {
      assert es[0] in es;
    }
  }

  lemma HeadsAgree(cmp: Comparator, m: map<Bytes, Bytes>, es1: seq<Entry>, es2: seq<Entry>)
    requires TotalOrder(cmp) && Listing(cmp, m, es1) && Listing(cmp, m, es2) && es1 != [] && es2 != []
    ensures es1[0] == es2[0]
  {
    var e1, e2 := es1[0], es2[0];
    assert e1 in es1 && e2 in es2;
    assert (e1.0, m[e1.0]) in es2 && (e2.0, m[e2.0]) in es1;
    var i :| 0 <= i < |es2| && es2[i] == e1;
    var j :| 0 <= j < |es1| && es1[j] == e2;
    assert cmp(e1.0, e2.0) == Reverse(cmp(e2.0, e1.0));
  }

  lemma ListingTail(cmp: Comparator, m: map<Bytes, Bytes>, es: seq<Entry>)
    requires TotalOrder(cmp) && Listing(cmp, m, es) && es != []
    ensures Listing(cmp, m - {es[0].0}, es[1..])
  {
    var k0, rest := es[0].0, es[1..];
    forall e | e in rest ensures e.0 in m - {k0} && m[e.0] == e.1 {
      var i :| 0 <= i < |rest| && rest[i] == e;
      assert es[i + 1] in es;
      assert cmp(es[0].0, es[i + 1].0) == Less;
    }
    forall k | k in m - {k0} ensures (k, m[k]) in rest {
      assert (k, m[k]) in es;
      assert es == [es[0]] + rest;
    }
  }

  function Reversed(es: seq<Entry>): (r: seq<Entry>)
    ensures |r| == |es|
    ensures forall i :: 0 <= i < |es| ==> r[i] == es[|es| - 1 - i]
  {
    seq(|es|, i requires 0 <= i < |es| => es[|es| - 1 - i])
  }
}
