/** `Arena::alloc` under concurrency: any number of allocations, one load or compare-and-swap per step. */
module ArenaProtocol {
  import opened Levels
  import opened NodeSizes

  datatype Pc = Load | Cas(current: nat) | Done(offset: nat) | OutOfMemory

  datatype Alloc = Alloc(size: nat, pc: Pc)

  datatype Region = Region(owner: nat, offset: nat, bytes: nat)

  /** `ptr` is the bump pointer's offset, 0 while it is null. `granted` is auxiliary: the regions in the
      order in which their CASes succeeded. */
  datatype State = State(capacity: nat, ptr: nat, allocs: map<nat, Alloc>, granted: seq<Region>)

  function Len(s: State): nat {
    s.ptr
  }

  function Goto(s: State, a: nat, pc: Pc): State
    requires a in s.allocs
  {
    s.(allocs := s.allocs[a := s.allocs[a].(pc := pc)])
  }

  function Advance(s: State, a: nat): State {
    if a !in s.allocs then s
    else
      var bytes := RoundUp(s.allocs[a].size);
      match s.allocs[a].pc
      case Load => Goto(s, a, if OrHead(s.ptr) + bytes > s.capacity then OutOfMemory else Cas(s.ptr))
      case Cas(current) =>
        if s.ptr != current then Goto(s, a, Load)
        else
          var offset := OrHead(current);
          Goto(s.(ptr := offset + bytes, granted := s.granted + [Region(a, offset, bytes)]), a, Done(offset))
      case Done(_) => s
      case OutOfMemory => s
  }

  datatype Action = Start(a: nat, size: nat) | Go(a: nat)

  function Do(s: State, act: Action): State {
    match act
    case Start(a, size) => if a in s.allocs then s else s.(allocs := s.allocs[a := Alloc(size, Load)])
    case Go(a) => Advance(s, a)
  }

  function Run(capacity: nat, acts: seq<Action>): State {
    if acts == [] then State(capacity, 0, map[], [])
    else Do(Run(capacity, acts[..|acts| - 1]), acts[|acts| - 1])
  }

  function Total(rs: seq<Region>): nat {
    if rs == [] then 0 else Total(rs[..|rs| - 1]) + rs[|rs| - 1].bytes
  }

  // -------------------- invariant --------------------

  /** Each region begins where the ones before it end. */
  ghost predicate Tiles(rs: seq<Region>) {
    forall i {:trigger rs[i]} :: 0 <= i < |rs| ==> rs[i].offset == HEAD + Total(rs[..i]) && rs[i].bytes % 8 == 0
  }

  ghost predicate PointerOk(s: State) {
    && Tiles(s.granted)
    && s.ptr == (if s.granted == [] then 0 else HEAD + Total(s.granted))
    && (s.granted != [] ==> s.ptr <= s.capacity)
  }

  /** Regions and finished allocations correspond one to one. */
  ghost predicate OwnersOk(s: State) {
    && (forall i {:trigger s.granted[i]} :: 0 <= i < |s.granted| ==>
          && s.granted[i].owner in s.allocs
          && s.allocs[s.granted[i].owner].pc == Done(s.granted[i].offset)
          && s.granted[i].bytes == RoundUp(s.allocs[s.granted[i].owner].size))
    && (forall i, j {:trigger s.granted[i], s.granted[j]} :: 0 <= i < j < |s.granted| ==>
          s.granted[i].owner != s.granted[j].owner)
    && (forall a {:trigger s.allocs[a]} :: a in s.allocs && s.allocs[a].pc.Done? ==> Granted(s, a))
  }

  ghost predicate Granted(s: State, a: nat) {
    exists i {:trigger s.granted[i]} :: 0 <= i < |s.granted| && s.granted[i].owner == a
  }

  ghost predicate ChecksOk(s: State) {
    forall a {:trigger s.allocs[a]} :: a in s.allocs && s.allocs[a].pc.Cas? ==>
      OrHead(s.allocs[a].pc.current) + RoundUp(s.allocs[a].size) <= s.capacity
  }

  ghost predicate Inv(s: State) {
    PointerOk(s) && OwnersOk(s) && ChecksOk(s)
  }

  lemma TotalSnoc(rs: seq<Region>, r: Region)
    ensures Total(rs + [r]) == Total(rs) + r.bytes
  {
    assert (rs + [r])[..|rs|] == rs;
  }

  lemma {:induction false} TotalMultiple(rs: seq<Region>)
    requires Tiles(rs)
    ensures Total(rs) % 8 == 0
  {
    if rs != [] {
      var front := rs[..|rs| - 1];
      forall i | 0 <= i < |front| ensures front[i].offset == HEAD + Total(front[..i]) && front[i].bytes % 8 == 0 {
        assert front[..i] == rs[..i];
        assert front[i] == rs[i];
      }
      TotalMultiple(front);
      assert rs[|rs| - 1].bytes % 8 == 0;
    }
  }

  lemma {:induction false} TotalPrefix(rs: seq<Region>, i: nat)
    requires i < |rs|
    ensures Total(rs[..i]) + rs[i].bytes <= Total(rs)
  {
    if i < |rs| - 1 {
      TotalPrefix(rs[..|rs| - 1], i);
      assert rs[..|rs| - 1][..i] == rs[..i];
    }
  }

  lemma TilesSnoc(rs: seq<Region>, r: Region)
    requires Tiles(rs) && r.offset == HEAD + Total(rs) && r.bytes % 8 == 0
    ensures Tiles(rs + [r])
  {
    var rs' := rs + [r];
    forall i | 0 <= i < |rs'| ensures rs'[i].offset == HEAD + Total(rs'[..i]) && rs'[i].bytes % 8 == 0 {
      if i < |rs| {
        assert rs'[..i] == rs[..i];
        assert rs'[i] == rs[i];
      } else {
        assert rs'[..i] == rs;
      }
    }
  }

  lemma GrantPointer(s: State, a: nat)
    requires Inv(s) && a in s.allocs && s.allocs[a].pc == Cas(s.ptr)
    ensures PointerOk(Advance(s, a)) && ChecksOk(Advance(s, a))
  {
    var r := Region(a, OrHead(s.ptr), RoundUp(s.allocs[a].size));
    assert Advance(s, a).granted == s.granted + [r];
    RoundedUp(s.allocs[a].size);
    TilesSnoc(s.granted, r);
    TotalSnoc(s.granted, r);
  }

  lemma GrantOwners(s: State, s': State, a: nat, r: Region)
    requires OwnersOk(s) && a in s.allocs && !s.allocs[a].pc.Done?
    requires r.owner == a && r.bytes == RoundUp(s.allocs[a].size)
    requires s'.granted == s.granted + [r] && s'.allocs == s.allocs[a := s.allocs[a].(pc := Done(r.offset))]
    ensures OwnersOk(s')
  {
    forall b | b in s'.allocs && s'.allocs[b].pc.Done? ensures Granted(s', b) {
      if b == a {
        assert s'.granted[|s.granted|].owner == a;
      } else {
        assert s'.allocs[b] == s.allocs[b];
        assert Granted(s, b);
        var i :| 0 <= i < |s.granted| && s.granted[i].owner == b;
        assert s'.granted[i].owner == b;
      }
    }
    forall i | 0 <= i < |s'.granted|
      ensures s'.granted[i].owner in s'.allocs && s'.allocs[s'.granted[i].owner].pc == Done(s'.granted[i].offset)
      ensures s'.granted[i].bytes == RoundUp(s'.allocs[s'.granted[i].owner].size)
      ensures i < |s.granted| ==> s'.granted[i].owner != a
    {
      if i < |s.granted| {
        assert s'.granted[i] == s.granted[i];
      }
    }
  }

  /** Any step but a successful CAS leaves the regions alone. */
  lemma OtherStep(s: State, a: nat, alloc: Alloc)
    requires Inv(s) && !alloc.pc.Done? && (a in s.allocs ==> !s.allocs[a].pc.Done?)
    requires alloc.pc.Cas? ==> OrHead(alloc.pc.current) + RoundUp(alloc.size) <= s.capacity
    ensures Inv(s.(allocs := s.allocs[a := alloc]))
  {
    hide RoundUp, Tiles;
    var s' := s.(allocs := s.allocs[a := alloc]);
    forall b | b in s'.allocs && s'.allocs[b].pc.Done? ensures Granted(s', b) {
      assert s'.allocs[b] == s.allocs[b];
      assert Granted(s, b);
      var i :| 0 <= i < |s.granted| && s.granted[i].owner == b;
      assert s'.granted[i].owner == b;
    }
  }

  lemma AdvanceKeepsInv(s: State, a: nat)
    requires Inv(s) && a in s.allocs
    ensures Inv(Advance(s, a))
  {
    hide PointerOk, OwnersOk, ChecksOk, RoundUp;
    var alloc := s.allocs[a];
    match alloc.pc
    case Load =>
      OtherStep(s, a, alloc.(pc := if OrHead(s.ptr) + RoundUp(alloc.size) > s.capacity then OutOfMemory
        else Cas(s.ptr)));
    case Cas(current) =>
      if s.ptr == current {
        GrantPointer(s, a);
        GrantOwners(s, Advance(s, a), a, Region(a, OrHead(s.ptr), RoundUp(alloc.size)));
      } else {
        OtherStep(s, a, alloc.(pc := Load));
      }
    case _ =>
  }

  lemma DoKeepsInv(s: State, act: Action)
    requires Inv(s)
    ensures Inv(Do(s, act))
  {
    hide PointerOk, OwnersOk, ChecksOk;
    match act
    case Start(a, size) =>
      if a !in s.allocs {
        OtherStep(s, a, Alloc(size, Load));
      }
    case Go(a) =>
      if a in s.allocs {
        AdvanceKeepsInv(s, a);
      }
  }

  lemma {:induction false} RunInv(capacity: nat, acts: seq<Action>)
    ensures Inv(Run(capacity, acts)) && Run(capacity, acts).capacity == capacity
  {
    if acts != [] {
      RunInv(capacity, acts[..|acts| - 1]);
      DoKeepsInv(Run(capacity, acts[..|acts| - 1]), acts[|acts| - 1]);
    }
  }

  // -------------------- what the arena promises --------------------

  lemma AlignedSum(before: nat)
    ensures before % 8 == 0 ==> (HEAD + before) % 8 == 0
  {
  }

  lemma RegionAt(rs: seq<Region>, i: nat)
    requires Tiles(rs) && i < |rs|
    ensures rs[i].offset % 8 == 0 && rs[i].offset >= HEAD && rs[i].offset + rs[i].bytes <= HEAD + Total(rs)
  {
    var before := Total(rs[..i]);
    assert rs[i].offset == HEAD + before;
    PrefixTiles(rs, i);
    TotalMultiple(rs[..i]);
    TotalPrefix(rs, i);
    hide *;
    AlignedSum(before);
  }

  lemma RegionsApart(rs: seq<Region>, i: nat, j: nat)
    requires Tiles(rs) && i < j < |rs|
    ensures rs[i].offset + rs[i].bytes <= rs[j].offset
  {
    TotalPrefix(rs[..j], i);
    assert rs[..j][..i] == rs[..i];
  }

  /** Every returned region is 8-aligned, starts at or above 8, and lies inside the capacity and below `len()`. */
  lemma RegionsAreAlignedAndInside(capacity: nat, acts: seq<Action>, a: nat)
    requires var s := Run(capacity, acts); a in s.allocs && s.allocs[a].pc.Done?
    ensures var s := Run(capacity, acts);
            var offset, bytes := s.allocs[a].pc.offset, RoundUp(s.allocs[a].size);
            offset % 8 == 0 && offset >= 8 && s.allocs[a].size <= bytes < s.allocs[a].size + 8
              && offset + bytes <= Len(s) <= capacity
  {
    RunInv(capacity, acts);
    var s := Run(capacity, acts);
    assert Granted(s, a);
    var i :| 0 <= i < |s.granted| && s.granted[i].owner == a;
    RegionAt(s.granted, i);
    RoundedUp(s.allocs[a].size);
  }

  lemma PrefixTiles(rs: seq<Region>, n: nat)
    requires Tiles(rs) && n <= |rs|
    ensures Tiles(rs[..n])
  {
    forall i | 0 <= i < n ensures rs[..n][i].offset == HEAD + Total(rs[..n][..i]) && rs[..n][i].bytes % 8 == 0 {
      assert rs[..n][..i] == rs[..i];
      assert rs[..n][i] == rs[i];
    }
  }

  /** Regions of different allocations do not overlap. */
  lemma RegionsAreDisjoint(capacity: nat, acts: seq<Action>, a: nat, b: nat)
    requires var s := Run(capacity, acts);
             a in s.allocs && b in s.allocs && a != b && s.allocs[a].pc.Done? && s.allocs[b].pc.Done?
    ensures var s := Run(capacity, acts);
            || s.allocs[a].pc.offset + RoundUp(s.allocs[a].size) <= s.allocs[b].pc.offset
            || s.allocs[b].pc.offset + RoundUp(s.allocs[b].size) <= s.allocs[a].pc.offset
  {
    RunInv(capacity, acts);
    var s := Run(capacity, acts);
    assert Granted(s, a) && Granted(s, b);
    var i :| 0 <= i < |s.granted| && s.granted[i].owner == a;
    var j :| 0 <= j < |s.granted| && s.granted[j].owner == b;
    if i < j {
      RegionsApart(s.granted, i, j);
    } else {
      RegionsApart(s.granted, j, i);
    }
  }

  /** The regions tile [8, len()) in the order they were granted, one per finished allocation. */
  lemma RegionsTileTheArena(capacity: nat, acts: seq<Action>)
    ensures var s := Run(capacity, acts);
            && Tiles(s.granted)
            && Len(s) == (if s.granted == [] then 0 else 8 + Total(s.granted))
            && (forall a {:trigger Granted(s, a)} :: Granted(s, a) <==> a in s.allocs && s.allocs[a].pc.Done?)
            && (forall i, j :: 0 <= i < j < |s.granted| ==> s.granted[i].owner != s.granted[j].owner)
  {
    RunInv(capacity, acts);
  }

  /** The pointer only moves when a region is granted, and never back. */
  lemma PointerStep(s: State, act: Action)
    requires Inv(s)
    ensures s.granted <= Do(s, act).granted && s.ptr <= Do(s, act).ptr
    ensures Do(s, act).ptr != s.ptr ==> |s.granted| < |Do(s, act).granted|
  {
    if act.Go? && act.a in s.allocs && s.allocs[act.a].pc == Cas(s.ptr) {
      var r := Region(act.a, OrHead(s.ptr), RoundUp(s.allocs[act.a].size));
      assert Do(s, act).granted == s.granted + [r];
    }
  }

  /** However a run goes on, regions once granted stay. If the bump pointer no longer holds the value it had, so that
      a CAS expecting that value fails, another allocation has been granted in between. */
  lemma {:induction false} FailedCasMeansProgress(capacity: nat, acts: seq<Action>, more: seq<Action>)
    ensures var s, s' := Run(capacity, acts), Run(capacity, acts + more);
            && s.granted <= s'.granted && s.ptr <= s'.ptr
            && (s'.ptr != s.ptr ==> |s.granted| < |s'.granted|)
    decreases |more|
  {
    if more == [] {
      assert acts + more == acts;
    } else {
      var front := more[..|more| - 1];
      FailedCasMeansProgress(capacity, acts, front);
      RunInv(capacity, acts + front);
      PointerStep(Run(capacity, acts + front), more[|more| - 1]);
      assert (acts + more)[..|acts + more| - 1] == acts + front;
    }
  }

  lemma PanicStep(s: State, act: Action, a: nat)
    requires Inv(s) && a in Do(s, act).allocs && Do(s, act).allocs[a].pc.OutOfMemory?
    requires a in s.allocs && s.allocs[a].pc.OutOfMemory? ==> OrHead(s.ptr) + RoundUp(s.allocs[a].size) > s.capacity
    ensures var s' := Do(s, act); OrHead(s'.ptr) + RoundUp(s'.allocs[a].size) > s'.capacity
  {
    hide RoundUp;
    PointerStep(s, act);
  }

  /** An allocation panics only when what it asks for does not fit: losing a race for room is no reason. */
  lemma {:induction false} PanicsOnlyWhenFull(capacity: nat, acts: seq<Action>, a: nat)
    requires var s := Run(capacity, acts); a in s.allocs && s.allocs[a].pc.OutOfMemory?
    ensures var s := Run(capacity, acts); OrHead(s.ptr) + RoundUp(s.allocs[a].size) > capacity
  {
    RunInv(capacity, acts);
    if acts != [] {
      var front := acts[..|acts| - 1];
      var s := Run(capacity, front);
      RunInv(capacity, front);
      if a in s.allocs && s.allocs[a].pc.OutOfMemory? {
        PanicsOnlyWhenFull(capacity, front, a);
      }
      PanicStep(s, acts[|acts| - 1], a);
    }
  }

  /** Left alone in any reachable state, an allocation under way is over in three steps at most, and it succeeds if and
      only if there is room for it. */
  lemma AloneAllocFinishes(capacity: nat, acts: seq<Action>, a: nat)
    requires var s := Run(capacity, acts); a in s.allocs && (s.allocs[a].pc.Load? || s.allocs[a].pc.Cas?)
    ensures var s, s' := Run(capacity, acts), Run(capacity, acts + [Go(a), Go(a), Go(a)]);
            && a in s'.allocs && (s'.allocs[a].pc.Done? || s'.allocs[a].pc.OutOfMemory?)
            && (s'.allocs[a].pc.Done? <==> OrHead(s.ptr) + RoundUp(s.allocs[a].size) <= capacity)
            && (s'.allocs[a].pc.Done? ==> s'.allocs[a].pc.offset == OrHead(s.ptr))
  {
    RunInv(capacity, acts);
    var s := Run(capacity, acts);
    hide Run, RoundUp, Advance, PointerOk, OwnersOk, ChecksOk;
    RunsBy(capacity, acts, a);
    AloneSteps(s, a);
  }

  lemma RunMore(capacity: nat, acts: seq<Action>, act: Action)
    ensures Run(capacity, acts + [act]) == Do(Run(capacity, acts), act)
  {
    hide Do;
    assert (acts + [act])[..|acts|] == acts;
  }

  lemma RunsBy(capacity: nat, acts: seq<Action>, a: nat)
    ensures Run(capacity, acts + [Go(a), Go(a), Go(a)]) == Advance(Advance(Advance(Run(capacity, acts), a), a), a)
  {
    hide Advance, Run;
    RunMore(capacity, acts, Go(a));
    RunMore(capacity, acts + [Go(a)], Go(a));
    RunMore(capacity, acts + [Go(a)] + [Go(a)], Go(a));
    assert acts + [Go(a)] + [Go(a)] + [Go(a)] == acts + [Go(a), Go(a), Go(a)];
  }

  lemma AloneSteps(s: State, a: nat)
    requires ChecksOk(s) && a in s.allocs && (s.allocs[a].pc.Load? || s.allocs[a].pc.Cas?)
    ensures var s' := Advance(Advance(Advance(s, a), a), a);
            && a in s'.allocs && (s'.allocs[a].pc.Done? || s'.allocs[a].pc.OutOfMemory?)
            && (s'.allocs[a].pc.Done? <==> OrHead(s.ptr) + RoundUp(s.allocs[a].size) <= s.capacity)
            && (s'.allocs[a].pc.Done? ==> s'.allocs[a].pc.offset == OrHead(s.ptr))
  {
    hide RoundUp;
    var s1 := Advance(s, a);
    assert s1.ptr == s.ptr || s1.allocs[a].pc == Done(OrHead(s.ptr));
    var s2 := Advance(s1, a);
    assert s2.allocs[a].pc == Cas(s.ptr) ==> s2.ptr == s.ptr;
  }
}
