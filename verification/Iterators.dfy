/** `IterRef`: a cursor over a single-writer list. */
module Iterators {
  import opened ByteStrings
  import opened Comparators
  import opened Levels
  import opened MapSpec
  import opened Seeks
  import opened Arenas
  import opened ListShape
  import opened SkipLists

  class IterRef {
    const list: SkipList
    /** Offset of the current node, 0 while not positioned. */
    var cursor: nat

    ghost predicate Valid()
      reads this, list, list.arena, list.arena.buf
    {
      list.Valid() && list.Position(cursor)
    }

    /** The entry under the cursor. */
    ghost function Here(): Option<Entry>
      reads this, list, list.arena
    {
      EntryAt(list.arena.nodes, cursor)
    }

    constructor (list: SkipList)
      requires list.Valid()
      ensures Valid() && this.list == list && Here() == None
    {
      hide Represents, Settled, TotalOrder;
      this.list := list;
      this.cursor := 0;
      new;
      StartSearch(list.cmp, list.arena.nodes, list.height);
    }

    method Key() returns (r: Option<Bytes>)
      requires Valid()
      ensures r == match Here() case None => None case Some(e) => Some(e.0)
    {
      hide Represents, Settled, TotalOrder;
      StartSearch(list.cmp, list.arena.nodes, list.height);
      if cursor == 0 {
        return None;
      }
      var key := list.arena.Key(cursor);
      return Some(key);
    }

    method Value() returns (r: Option<Bytes>)
      requires Valid()
      ensures r == match Here() case None => None case Some(e) => Some(e.1)
    {
      hide Represents, Settled, TotalOrder;
      StartSearch(list.cmp, list.arena.nodes, list.height);
      if cursor == 0 {
        return None;
      }
      var value := list.arena.Value(cursor);
      return Some(value);
    }

    method Next()
      requires Valid()
      modifies this`cursor
      ensures Valid()
      ensures match old(Here())
              case None => Here() == None
              case Some(e) => Nearest(list.cmp, list.Contents(), e.0, false, false, Here())
    {
      hide Represents, Settled, TotalOrder, LevelOk, DistinctKeys, Stored, Nearest;
      ghost var h := list.arena.nodes;
      StartSearch(list.cmp, h, list.height);
      if cursor == 0 {
        return;
      }
      AnswerAfter(list.cmp, h, list.height, cursor, h[cursor].key);
      cursor := list.arena.NextOffset(cursor, 0);
    }

    /** The single-writer route: follow the back pointer. */
    method Prev()
      requires Valid()
      modifies this`cursor
      ensures Valid()
      ensures match old(Here())
              case None => Here() == None
              case Some(e) => Nearest(list.cmp, list.Contents(), e.0, true, false, Here())
    {
      hide Represents, Settled, TotalOrder, LevelOk, DistinctKeys, Stored, Nearest;
      ghost var h := list.arena.nodes;
      StartSearch(list.cmp, h, list.height);
      if cursor == 0 {
        return;
      }
      AnswerBefore(list.cmp, h, list.height, cursor);
      cursor := list.arena.PrevOffset(cursor);
      if cursor == list.head {
        cursor := 0;
      }
    }

    /** The route taken when back pointers are not kept: search again for the current key. */
    method PrevBySearch()
      requires Valid()
      modifies this`cursor
      ensures Valid()
      ensures match old(Here())
              case None => Here() == None
              case Some(e) => Nearest(list.cmp, list.Contents(), e.0, true, false, Here())
    {
      hide Represents, Settled, TotalOrder, LevelOk, DistinctKeys, Stored, Nearest;
      var key := Key();
      match key {
        case None =>
        case Some(k) => cursor := list.FindNear(k, true, false);
      }
    }

    /** To the first entry at or after `target`. */
    method Seek(target: Bytes)
      requires Valid()
      modifies this`cursor
      ensures Valid() && Nearest(list.cmp, list.Contents(), target, false, true, Here())
    {
      hide Represents, Settled, TotalOrder, LevelOk, DistinctKeys, Stored, Nearest;
      cursor := list.FindNear(target, false, true);
    }

    /** To the last entry at or before `target`. */
    method SeekForPrev(target: Bytes)
      requires Valid()
      modifies this`cursor
      ensures Valid() && Nearest(list.cmp, list.Contents(), target, true, true, Here())
    {
      hide Represents, Settled, TotalOrder, LevelOk, DistinctKeys, Stored, Nearest;
      cursor := list.FindNear(target, true, true);
    }

    method SeekToFirst()
      requires Valid()
      modifies this`cursor
      ensures Valid() && Least(list.cmp, list.Contents(), Here())
    {
      hide Represents, Settled, TotalOrder, LevelOk, DistinctKeys, Stored, Least;
      StartSearch(list.cmp, list.arena.nodes, list.height);
      AnswerAtStart(list.cmp, list.arena.nodes, list.height);
      cursor := list.arena.NextOffset(list.head, 0);
    }

    method SeekToLast()
      requires Valid()
      modifies this`cursor
      ensures Valid() && Greatest(list.cmp, list.Contents(), Here())
    {
      hide Represents, Settled, TotalOrder, LevelOk, DistinctKeys, Stored, Greatest;
      cursor := list.FindLast();
    }
  }

  /** An entry determines its node, so two routes that reach the same entry leave the cursor at the same offset. */
  lemma SameEntrySameCursor(cmp: Comparator, h: Heap, height: nat, x: nat, y: nat)
    requires Settled(cmp, h, height)
    requires x == 0 || x in OnLevel(h, 0) - {HEAD}
    requires y == 0 || y in OnLevel(h, 0) - {HEAD}
    requires EntryAt(h, x) == EntryAt(h, y)
    ensures x == y
  {
    LevelOf(cmp, h, height, 0);
  }

  /** The back pointer and the search for the current key lead to the same node. */
  lemma PrevRoutesAgree(cmp: Comparator, h: Heap, height: nat, y: nat, found: nat)
    requires TotalOrder(cmp) && Settled(cmp, h, height) && DistinctKeys(h, OnLevel(h, 0))
    requires y in h && y != HEAD
    requires (found == 0 || found in OnLevel(h, 0) - {HEAD})
             && Nearest(cmp, Stored(h), h[y].key, true, false, EntryAt(h, found))
    ensures found == if h[y].prev == HEAD then 0 else h[y].prev
  {
    LevelZeroIsAll(h);
    AnswerBefore(cmp, h, height, y);
    var p := if h[y].prev == HEAD then 0 else h[y].prev;
    NearestUnique(cmp, Stored(h), h[y].key, true, false, EntryAt(h, p), EntryAt(h, found));
    SameEntrySameCursor(cmp, h, height, p, found);
  }

  // -------------------- traversal --------------------

  /** A traversal standing at `at` has collected exactly the entries before it, in order. */
  ghost predicate Collected(cmp: Comparator, m: map<Bytes, Bytes>, es: seq<Entry>, at: Option<Entry>) {
    && Ascending(cmp, es)
    && (forall e :: e in es ==> e.0 in m && m[e.0] == e.1)
    && match at
       case None => forall k :: k in m ==> (k, m[k]) in es
       case Some((k, v)) => k in m && m[k] == v && forall c :: c in m ==> ((c, m[c]) in es <==> cmp(c, k) == Less)
  }

  ghost function Remaining(m: map<Bytes, Bytes>, es: seq<Entry>): set<Bytes> {
    set k | k in m && (k, m[k]) !in es
  }

  lemma CollectMore(cmp: Comparator, m: map<Bytes, Bytes>, es: seq<Entry>, at: Entry, next: Option<Entry>)
    requires TotalOrder(cmp) && Collected(cmp, m, es, Some(at)) && Nearest(cmp, m, at.0, false, false, next)
    ensures Collected(cmp, m, es + [at], next)
    ensures |Remaining(m, es + [at])| < |Remaining(m, es)|
  {
    var es' := es + [at];
    forall c | c in m ensures (c, m[c]) in es' <==> c == at.0 || cmp(c, at.0) == Less {
      assert (c, m[c]) in es' <==> (c, m[c]) in es || (c, m[c]) == at;
    }
    assert next.Some? ==> cmp(next.value.0, at.0) == Greater && cmp(at.0, next.value.0) == Less;
    assert forall e :: e in es' ==> e in es || e == at;
    assert Ascending(cmp, es') by {
      forall a, b | 0 <= a < b < |es'| ensures cmp(es'[a].0, es'[b].0) == Less {
        assert es'[a] in es && es'[a] == es[a] == (es[a].0, m[es[a].0]);
      }
    }
    forall c | c in m
      ensures next == None ==> c == at.0 || cmp(c, at.0) == Less
      ensures next != None ==> (cmp(c, next.value.0) == Less <==> c == at.0 || cmp(c, at.0) == Less)
    {
      assert cmp(c, at.0) == Equal <==> c == at.0;
      assert cmp(c, at.0) == Greater ==> Wanted(cmp, at.0, false, false, c);
    }
    assert at.0 in Remaining(m, es) by {
      assert cmp(at.0, at.0) == Equal;
    }
    assert Remaining(m, es') == Remaining(m, es) - {at.0};
  }

  method CollectForward(list: SkipList) returns (es: seq<Entry>)
    requires list.Valid()
    ensures Listing(list.cmp, list.Contents(), es)
  {
    hide Represents, Settled, Stored, Ascending, Nearest, Collected;
    var it := new IterRef(list);
    it.SeekToFirst();
    es := [];
    ghost var m := list.Contents();
    CollectStart(list.cmp, m, it.Here());
    var key := it.Key();
    while key != None
      invariant it.Valid() && Collected(list.cmp, m, es, it.Here())
      invariant key == match it.Here() case None => None case Some(e) => Some(e.0)
      decreases |Remaining(m, es)|
    {
      var value := it.Value();
      ghost var at := it.Here().value;
      it.Next();
      CollectMore(list.cmp, m, es, at, it.Here());
      es := es + [(key.value, value.value)];
      key := it.Key();
    }
    CollectEnd(list.cmp, m, es);
  }

  lemma CollectStart(cmp: Comparator, m: map<Bytes, Bytes>, first: Option<Entry>)
    requires TotalOrder(cmp) && Least(cmp, m, first)
    ensures Collected(cmp, m, [], first)
  {
  }

  lemma CollectEnd(cmp: Comparator, m: map<Bytes, Bytes>, es: seq<Entry>)
    requires Collected(cmp, m, es, None)
    ensures Listing(cmp, m, es)
  {
  }

  /** The opposite order. */
  ghost function Flip(cmp: Comparator): Comparator {
    (a, b) => cmp(b, a)
  }

  lemma FlipIsTotalOrder(cmp: Comparator)
    requires TotalOrder(cmp)
    ensures TotalOrder(Flip(cmp))
  {
    forall a, b ensures Flip(cmp)(a, b) == Equal <==> a == b {
      assert cmp(b, a) == Equal <==> a == b;
    }
    forall a, b ensures Flip(cmp)(b, a) == Reverse(Flip(cmp)(a, b)) {
      assert cmp(a, b) == Reverse(cmp(b, a));
    }
  }

  lemma FlipSeeks(cmp: Comparator, m: map<Bytes, Bytes>, key: Bytes, r: Option<Entry>)
    requires TotalOrder(cmp)
    ensures Greatest(cmp, m, r) ==> Least(Flip(cmp), m, r)
    ensures Nearest(cmp, m, key, true, false, r) ==> Nearest(Flip(cmp), m, key, false, false, r)
  {
    assert forall a, b {:trigger cmp(a, b)} :: Flip(cmp)(a, b) == Reverse(cmp(a, b));
  }

  lemma FlipListing(cmp: Comparator, m: map<Bytes, Bytes>, es: seq<Entry>)
    requires TotalOrder(cmp) && Listing(Flip(cmp), m, es)
    ensures Listing(cmp, m, Reversed(es))
  {
    var r := Reversed(es);
    forall e ensures e in r <==> e in es {
      if e in es {
        var i :| 0 <= i < |es| && es[i] == e;
        assert r[|es| - 1 - i] == e;
      }
    }
    forall a, b | 0 <= a < b < |r| ensures cmp(r[a].0, r[b].0) == Less {
      assert Flip(cmp)(es[|es| - 1 - b].0, es[|es| - 1 - a].0) == Less;
    }
  }

  method CollectBackward(list: SkipList) returns (es: seq<Entry>)
    requires list.Valid()
    ensures Listing(list.cmp, list.Contents(), Reversed(es))
  {
    hide Represents, Settled, Stored, Ascending, Nearest, Collected, TotalOrder, Greatest, Least;
    var it := new IterRef(list);
    it.SeekToLast();
    es := [];
    ghost var m, flip := list.Contents(), Flip(list.cmp);
    FlipIsTotalOrder(list.cmp);
    FlipSeeks(list.cmp, m, [], it.Here());
    CollectStart(flip, m, it.Here());
    var key := it.Key();
    while key != None
      invariant it.Valid() && Collected(flip, m, es, it.Here())
      invariant key == match it.Here() case None => None case Some(e) => Some(e.0)
      decreases |Remaining(m, es)|
    {
      var value := it.Value();
      ghost var at := it.Here().value;
      it.Prev();
      FlipSeeks(list.cmp, m, at.0, it.Here());
      CollectMore(flip, m, es, at, it.Here());
      es := es + [(key.value, value.value)];
      key := it.Key();
    }
    CollectEnd(flip, m, es);
    FlipListing(list.cmp, m, es);
  }

  /** Walking back yields the reverse of walking forward. */
  lemma BackwardIsForwardReversed(cmp: Comparator, m: map<Bytes, Bytes>, forward: seq<Entry>, backward: seq<Entry>)
    requires TotalOrder(cmp) && Listing(cmp, m, forward) && Listing(cmp, m, Reversed(backward))
    ensures backward == Reversed(forward)
  {
    ListingUnique(cmp, m, forward, Reversed(backward));
    assert forall i :: 0 <= i < |backward| ==> Reversed(forward)[i] == backward[i];
  }
}
