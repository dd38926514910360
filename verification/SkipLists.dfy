/** The skiplist built with `allow_concurrent_write = false`: one writer, over the byte arena. */
module SkipLists {
  import opened ByteStrings
  import opened Comparators
  import opened Levels
  import opened NodeSizes
  import opened Chains
  import opened MapSpec
  import opened Seeks
  import opened Arenas
  import opened ListShape
  import opened Sums

  /** What `put` comes to: the arena's panic, or its return value. */
  datatype PutOutcome = Panicked | Done(rejected: Option<Entry>)

  /** A node with this entry and one link per level up to `height`. */
  ghost predicate HoldsNode(h: Heap, x: nat, key: Bytes, value: Bytes, height: nat) {
    x in h && h[x].key == key && h[x].value == value && h[x].height == height && |h[x].tower| == height + 1
  }

  /** Every node stays where it is, with its key and value. */
  ghost predicate Extends(h: Heap, h': Heap) {
    forall x {:trigger h[x]} {:trigger h'[x]} :: x in h ==>
      x in h' && h'[x].key == h[x].key && h'[x].value == h[x].value
  }

  class SkipList {
    const cmp: Comparator
    const arena: Arena
    const head: nat
    var height: nat

    ghost predicate Valid()
      reads this, arena, arena.buf
    {
      arena.Valid() && TotalOrder(cmp) && head == HEAD && Settled(cmp, arena.nodes, height)
    }

    ghost function Contents(): map<Bytes, Bytes>
      reads this, arena, arena.buf
      requires Valid()
    {
      LevelOf(cmp, arena.nodes, height, 0);
      Stored(arena.nodes)
    }

    /** The linked nodes that hold entries. */
    ghost function Entries(): set<nat>
      reads this, arena
    {
      OnLevel(arena.nodes, 0) - {HEAD}
    }

    /** A node that holds an entry, or 0 for none. */
    ghost predicate Position(x: nat)
      reads this, arena
    {
      x == 0 || x in Entries()
    }

    constructor Over(cmp: Comparator, arena: Arena, head: nat)
      requires arena.Valid() && TotalOrder(cmp) && head == HEAD && arena.nodes == map[HEAD := HeadNode()]
      ensures Valid() && this.cmp == cmp && this.arena == arena && Contents() == map[]
    {
      hide Represents, Settled, LevelOk, Stored;
      this.cmp := cmp;
      this.arena := arena;
      this.head := head;
      this.height := 0;
      FreshListSettled(cmp);
    }

    /** A list over a fresh arena; None is the arena's panic, when even the head does not fit or the capacity is more
        than the allocator accepts. */
    static method WithCapacity(cmp: Comparator, capacity: nat) returns (r: Option<SkipList>)
      requires TotalOrder(cmp)
      ensures r == None <==> capacity < 192 || capacity > MAX_CAPACITY
      ensures r != None ==>
                && fresh(r.value) && fresh(r.value.arena) && fresh(r.value.arena.buf)
                && r.value.cmp == cmp && r.value.Valid() && r.value.Contents() == map[]
                && r.value.arena.capacity == capacity && r.value.arena.top == 192 && r.value.arena.order == [HEAD]
    {
      hide Represents, Settled;
      assert NodeBytes([], [], MAX_HEIGHT - 1) == 184;
      if capacity > MAX_CAPACITY {
        return None;
      }
      var arena := new Arena(capacity);
      var head := arena.AllocNode([], [], MAX_HEIGHT - 1);
      if head == None {
        return None;
      }
      assert arena.nodes == map[HEAD := HeadNode()];
      var list := new SkipList.Over(cmp, arena, head.value);
      return Some(list);
    }

    /** The neighbours of `key` on a level, or the node holding `key` twice over. */
    method FindSplice(key: Bytes, start: nat, level: nat) returns (p: nat, n: nat)
      requires Valid() && level < MAX_HEIGHT
      requires start == 0 || (start in OnLevel(arena.nodes, level) && BeforeKey(cmp, arena.nodes, start, key))
      ensures p != 0
      ensures p == n ==> p in arena.nodes && EqualKey(arena.nodes, p, key)
      ensures p != n ==> Gap(cmp, arena.nodes, OnLevel(arena.nodes, level), level, p, n, key)
    {
      hide Represents, Settled;
      ghost var h, l := arena.nodes, OnLevel(arena.nodes, level);
      LevelOf(cmp, h, height, level);
      var before := start;
      while true
        invariant before == 0 || (before in l && BeforeKey(cmp, h, before, key))
        decreases |After(cmp, h, l, if before == 0 then HEAD else before)|
      {
        if before == 0 {
          before := head;
        }
        var next := arena.NextOffset(before, level);
        if next == 0 {
          return before, 0;
        }
        NextShrinksAfter(cmp, h, l, level, before);
        var nextKey := arena.Key(next);
        match cmp(nextKey, key) {
          case Less => before := next;
          case Greater => return before, next;
          case Equal => return next, next;
        }
      }
    }

    /** The descent of `put`: the neighbours of `key` on every level, or a node that already holds it. */
    method Search(key: Bytes, prev: array<nat>, next: array<nat>) returns (existing: nat)
      requires Valid() && prev.Length == next.Length == MAX_HEIGHT + 1 && prev != next
      requires forall j :: 0 <= j <= MAX_HEIGHT ==> prev[j] == 0 && next[j] == 0
      modifies prev, next
      ensures Valid()
      ensures existing != 0 ==> existing in arena.nodes && EqualKey(arena.nodes, existing, key)
      ensures existing == 0 ==> forall j {:trigger prev[j]} :: 0 <= j < MAX_HEIGHT ==>
                Gap(cmp, arena.nodes, OnLevel(arena.nodes, j), j, prev[j], next[j], key)
    {
      hide Represents, Settled, TotalOrder;
      ghost var h := arena.nodes;
      SettledBasics(cmp, h, height);
      for j := height + 1 to MAX_HEIGHT + 1
        invariant Valid()
        invariant forall k :: height < k < j ==> prev[k] == HEAD
        invariant forall k :: 0 <= k <= MAX_HEIGHT ==> next[k] == 0
      {
        prev[j] := head;
      }
      forall j | height < j < MAX_HEIGHT ensures Gap(cmp, h, OnLevel(h, j), j, prev[j], next[j], key) {
        EmptyAbove(cmp, h, height, j, key);
      }
      for level := height + 1 downto 0
        invariant Valid()
        invariant prev[MAX_HEIGHT] == HEAD
        invariant forall j {:trigger prev[j]} :: level <= j < MAX_HEIGHT ==>
                  Gap(cmp, h, OnLevel(h, j), j, prev[j], next[j], key)
      {
        StartBelow(h, level, prev[level + 1]);
        var p, n := FindSplice(key, prev[level + 1], level);
        prev[level], next[level] := p, n;
        if p == n && p != 0 {
          return p;
        }
      }
      return 0;
    }

    /** One turn of the linking loop: back pointers on level 0, then the new node's own link, then its predecessor's. */
    method LinkLevel(n: nat, i: nat, p: nat, q: nat)
      requires arena.Valid() && HasLevel(arena.nodes, n, i) && HasLevel(arena.nodes, p, i)
               && (q != 0 ==> q in arena.nodes)
      modifies arena`nodes, arena.buf
      ensures arena.Valid() && arena.nodes == LinkedOn(old(arena.nodes), n, i, p, q)
    {
      hide Represents;
      OffsetsFit(arena.buf[..], arena.top, arena.nodes, arena.order);
      if i == 0 {
        arena.SetPrev(n, p);
        if q != 0 {
          arena.SetPrev(q, n);
        }
      }
      arena.SetNext(n, i, q);
      arena.SetNext(p, i, n);
    }

    /** The linking loop: the new node goes in on each level of its tower, from the bottom up. */
    method LinkAll(n: nat, height: nat, prev: array<nat>, next: array<nat>)
      requires arena.Valid() && TotalOrder(cmp) && height < MAX_HEIGHT
      requires n in arena.nodes && arena.nodes[n].height == height && Linking(cmp, arena.nodes, n, 0)
      requires Gaps(cmp, arena.nodes, n, 0, prev[..], next[..])
      modifies arena`nodes, arena.buf
      ensures arena.Valid() && SameNodes(old(arena.nodes), arena.nodes) && Linking(cmp, arena.nodes, n, height + 1)
    {
      hide Represents, TotalOrder, Linking, Gaps, LinkedOn;
      for i := 0 to height + 1
        invariant arena.Valid() && SameNodes(old(arena.nodes), arena.nodes)
        invariant Linking(cmp, arena.nodes, n, i) && Gaps(cmp, arena.nodes, n, i, prev[..], next[..])
      {
        ghost var before := arena.nodes;
        GapsAt(cmp, before, n, i, prev[..], next[..]);
        assert prev[i] != 0; // so there is never a predecessor to be replaced by the head
        LinkLevel(n, i, prev[i], next[i]);
        LinkTurn(cmp, before, arena.nodes, n, i, prev[..], next[..]);
      }
    }

    /** Allocate a node for an absent key, raise the list height and link the node; false is the arena's panic. */
    method AddNode(key: Bytes, value: Bytes, height: nat, prev: array<nat>, next: array<nat>) returns (added: bool)
      requires Valid() && key !in Contents() && height < MAX_HEIGHT && |key| < U32_SIZE && |value| < U32_SIZE
      requires prev.Length == next.Length == MAX_HEIGHT + 1
      requires forall j {:trigger prev[j]} :: 0 <= j < MAX_HEIGHT ==>
                 Gap(cmp, arena.nodes, OnLevel(arena.nodes, j), j, prev[j], next[j], key)
      modifies this`height, arena, arena.buf
      ensures Valid()
      ensures added <==> old(arena.top) + NodeBytes(key, value, height) <= arena.capacity
      ensures !added ==>
                arena.nodes == old(arena.nodes) && arena.order == old(arena.order) && arena.top == old(arena.top)
                  && this.height == old(this.height)
      ensures added ==>
                && arena.order == old(arena.order) + [old(arena.top)]
                  && arena.top == old(arena.top) + NodeBytes(key, value, height)
                && HoldsNode(arena.nodes, old(arena.top), key, value, height)
                && this.height == (if height > old(this.height) then height else old(this.height))
                && Contents() == old(Contents())[key := value]
      ensures Extends(old(arena.nodes), arena.nodes)
    {
      hide Represents, Settled, TotalOrder, Linking, Gaps, Gap, LinkedOn, LevelOk, OnLevel, Stored;
      hide NodeBytes, TowersOk, HeightsBounded, DistinctKeys;
      ghost var h := arena.nodes;
      SettledBasics(cmp, h, this.height);
      OffsetsFit(arena.buf[..], arena.top, arena.nodes, arena.order);
      var granted := arena.AllocNode(key, value, height);
      if granted == None {
        return false;
      }
      var n := granted.value;
      ghost var node := FreshNode(key, value, height);
      StartLinking(cmp, h, this.height, n, node, prev[..], next[..]);
      ghost var was := this.height;
      if height > this.height {
        this.height := height;
      }
      LinkAll(n, height, prev, next);
      LinkedHeights(h, was, n, node, arena.nodes, this.height);
      DoneLinking(cmp, arena.nodes, n, this.height);
      LinkedContents(h, n, node, arena.nodes);
      return true;
    }

    /** Insert a pair unless the key is taken. The height is the caller's random draw. */
    method Put(key: Bytes, value: Bytes, height: nat) returns (r: PutOutcome)
      requires Valid() && height < MAX_HEIGHT && |key| < U32_SIZE && |value| < U32_SIZE
      modifies this`height, arena, arena.buf
      ensures Valid()
      ensures r == Panicked <==>
              key !in old(Contents()) && old(arena.top) + NodeBytes(key, value, height) > arena.capacity
      ensures r != Panicked ==> r == Done(InsertAnswer(old(Contents()), key, value))
      ensures Contents() == if r == Panicked then old(Contents()) else Insert(old(Contents()), key, value)
      ensures r != Panicked ==> key in Contents() && (r == Done(None) <==> Contents()[key] == value)
      ensures r != Panicked && r != Done(None) ==> r == Done(Some((key, value)))
      ensures forall k :: k in old(Contents()) ==> k in Contents() && Contents()[k] == old(Contents())[k]
      ensures forall k :: k in Contents() ==> k in old(Contents()) || (k == key && Contents()[k] == value)
      ensures r == Panicked || key in old(Contents()) ==>
                arena.nodes == old(arena.nodes) && arena.order == old(arena.order) && arena.top == old(arena.top)
                  && this.height == old(this.height)
      ensures r != Panicked && key !in old(Contents()) ==>
                && arena.order == old(arena.order) + [old(arena.top)]
                  && arena.top == old(arena.top) + NodeBytes(key, value, height)
                && HoldsNode(arena.nodes, old(arena.top), key, value, height)
                && this.height == if height > old(this.height) then height else old(this.height)
      ensures Extends(old(arena.nodes), arena.nodes)
    {
      hide Represents, Settled, TotalOrder, Linking, Gaps, Gap, LinkedOn, LevelOk, OnLevel, Stored;
      hide NodeBytes, TowersOk, HeightsBounded, DistinctKeys, EqualKey;
      var prev := new nat[MAX_HEIGHT + 1](_ => 0);
      var next := new nat[MAX_HEIGHT + 1](_ => 0);
      ghost var h := arena.nodes;
      SettledBasics(cmp, h, this.height);
      var existing := Search(key, prev, next);
      if existing != 0 {
        TakenKey(cmp, h, this.height, existing, key);
        var present := arena.Value(existing);
        if present != value {
          return Done(Some((key, value)));
        }
        return Done(None);
      }
      FreeKey(cmp, h, this.height, prev[0], next[0], key);
      var added := AddNode(key, value, height, prev, next);
      return if added then Done(None) else Panicked;
    }

    // -------------------- lookups --------------------

    /** The first entry at or after `key`. */
    method LowerBound(key: Bytes) returns (r: Option<Entry>)
      requires Valid()
      ensures Nearest(cmp, Contents(), key, false, true, r)
    {
      hide Represents, Settled, TotalOrder, OnLevel, LevelOk, DistinctKeys, Stored, Nearest, After;
      ghost var h := arena.nodes;
      StartSearch(cmp, h, height);
      var current: nat, level: nat := head, height;
      while true
        invariant level < MAX_HEIGHT && current in OnLevel(h, level) && current in h && BeforeKey(cmp, h, current, key)
        decreases level, |After(cmp, h, OnLevel(h, level), current)|
      {
        SearchStep(cmp, h, height, level, current);
        var next := arena.NextOffset(current, level);
        if next == 0 {
          if level > 0 {
            level := level - 1;
            continue;
          }
          AnswerAtGap(cmp, h, height, current, key, false, true);
          return None;
        }
        var nextKey := arena.Key(next);
        match cmp(nextKey, key) {
          case Less => current := next;
          case Equal =>
            KeyIsEqual(cmp, nextKey, key);
            AnswerAtHit(cmp, h, height, next, key, false);
            var value := arena.Value(next);
            return Some((nextKey, value));
          case Greater =>
            if level > 0 {
              level := level - 1;
              continue;
            }
            AnswerAtGap(cmp, h, height, current, key, false, true);
            var value := arena.Value(next);
            return Some((nextKey, value));
        }
      }
    }

    /** The pair stored under exactly these key bytes. */
    method GetWithKey(key: Bytes) returns (r: Option<Entry>)
      requires Valid()
      ensures r == if key in Contents() then Some((key, Contents()[key])) else None
    {
      hide Represents, Settled;
      var found := LowerBound(key);
      match found {
        case None => return None;
        case Some(entry) => return if entry.0 == key then Some(entry) else None;
      }
    }

    method Get(key: Bytes) returns (r: Option<Bytes>)
      requires Valid()
      ensures r == if key in Contents() then Some(Contents()[key]) else None
    {
      hide *;
      var found := GetWithKey(key);
      return match found case None => None case Some(entry) => Some(entry.1);
    }

    method Has(key: Bytes) returns (r: bool)
      requires Valid()
      ensures r <==> key in Contents()
    {
      hide *;
      var found := Get(key);
      return found != None;
    }

    // -------------------- positions --------------------

    /** The node nearest to `key` on the wanted side, 0 when there is none. */
    method FindNear(key: Bytes, less: bool, allowEqual: bool) returns (r: nat)
      requires Valid()
      ensures Position(r) && Nearest(cmp, Contents(), key, less, allowEqual, EntryAt(arena.nodes, r))
    {
      hide Represents, Settled, TotalOrder, OnLevel, LevelOk, DistinctKeys, Stored, Nearest, After;
      ghost var h := arena.nodes;
      StartSearch(cmp, h, height);
      var cursor: nat, level: nat := head, height;
      while true
        invariant level < MAX_HEIGHT && cursor in OnLevel(h, level) && cursor in h && BeforeKey(cmp, h, cursor, key)
        decreases level, |After(cmp, h, OnLevel(h, level), cursor)|
      {
        SearchStep(cmp, h, height, level, cursor);
        var next := arena.NextOffset(cursor, level);
        if next == 0 {
          if level > 0 {
            level := level - 1;
            continue;
          }
          AnswerAtGap(cmp, h, height, cursor, key, less, allowEqual);
          return if !less || cursor == head then 0 else cursor;
        }
        var nextKey := arena.Key(next);
        var order := cmp(nextKey, key);
        if order == Less {
          cursor := next;
          continue;
        }
        if order == Equal {
          KeyIsEqual(cmp, nextKey, key);
          if allowEqual {
            AnswerAtHit(cmp, h, height, next, key, less);
            return next;
          }
          if !less {
            AnswerAfter(cmp, h, height, next, key);
            r := arena.NextOffset(next, 0);
            return;
          }
          if level > 0 {
            level := level - 1;
            continue;
          }
          AnswerAtGap(cmp, h, height, cursor, key, less, allowEqual);
          return if cursor == head then 0 else cursor;
        }
        if level > 0 {
          level := level - 1;
          continue;
        }
        AnswerAtGap(cmp, h, height, cursor, key, less, allowEqual);
        return if !less then next else if cursor == head then 0 else cursor;
      }
    }

    /** The node with the greatest key, 0 when the list is empty. */
    method FindLast() returns (r: nat)
      requires Valid()
      ensures Position(r) && Greatest(cmp, Contents(), EntryAt(arena.nodes, r))
    {
      hide Represents, Settled, TotalOrder, OnLevel, LevelOk, DistinctKeys, Stored, Greatest, After;
      ghost var h := arena.nodes;
      StartSearch(cmp, h, height);
      var cursor: nat, level: nat := head, height;
      while true
        invariant level < MAX_HEIGHT && cursor in OnLevel(h, level)
        decreases level, |After(cmp, h, OnLevel(h, level), cursor)|
      {
        SearchStep(cmp, h, height, level, cursor);
        var next := arena.NextOffset(cursor, level);
        if next != 0 {
          cursor := next;
          continue;
        }
        if level == 0 {
          AnswerAtEnd(cmp, h, height, cursor);
          return if cursor == head then 0 else cursor;
        }
        level := level - 1;
      }
    }

    // -------------------- sizes --------------------

    method Len() returns (count: nat)
      requires Valid()
      ensures count == |Contents()|
    {
      hide Represents, Settled;
      ghost var h, l := arena.nodes, OnLevel(arena.nodes, 0);
      LevelOf(cmp, h, height, 0);
      ContentsSize(h, l);
      AllAfterHead(cmp, h, l);
      count := 0;
      var current := head;
      while true
        invariant current in l && count + |After(cmp, h, l, current)| == |l| - 1
        decreases |After(cmp, h, l, current)|
      {
        var next := arena.NextOffset(current, 0);
        if next == 0 {
          NoneAfterLast(cmp, h, l, current);
          break;
        }
        NextShrinksAfter(cmp, h, l, 0, current);
        NotAfterItself(cmp, h, l, next);
        current := next;
        count := count + 1;
      }
    }

    /** No arena garbage: the arena holds the head and the linked nodes, and nothing else. */
    method MemSize() returns (bytes: nat)
      requires Valid()
      ensures bytes == 192 + Sum(Entries(), TowerWeights(arena.nodes))
    {
      hide Represents, Settled, TotalOrder, OnLevel;
      HeadFootprint(cmp, arena.nodes, height);
      SameFootprint(cmp, arena.nodes, height, Entries());
      bytes := arena.Len();
    }
  }
}
