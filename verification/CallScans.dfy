/** Iterating backwards by calls: `seek_to_last`, then `find_near` for the key at hand, as a list with many writers
    does. */
module CallScans {
  import opened ByteStrings
  import opened Comparators
  import opened MapSpec
  import opened Protocol
  import opened ProtocolInvariant
  import opened ProtocolRuns
  import opened ProtocolTheorems

  // -------------------- on growing maps --------------------

  ghost predicate Extends(m: map<Bytes, Bytes>, m': map<Bytes, Bytes>) {
    forall k {:trigger k in m} :: k in m ==> k in m' && m'[k] == m[k]
  }

  ghost predicate MapsGrow(ms: seq<map<Bytes, Bytes>>) {
    forall i, j {:trigger ms[i], ms[j]} :: 0 <= i <= j < |ms| ==> Extends(ms[i], ms[j])
  }

  /** The k-th answer: an entry, and None in the end. */
  function AnswerAt(es: seq<Entry>, k: nat): Option<Entry> {
    if k < |es| then Some(es[k]) else None
  }

  /** Each answer is right for its own map. */
  ghost predicate StepsBack(cmp: Comparator, ms: seq<map<Bytes, Bytes>>, es: seq<Entry>) {
    && |ms| == |es| + 1 && Greatest(cmp, ms[0], AnswerAt(es, 0))
    && forall k {:trigger es[k]} :: 0 <= k < |es| ==> Nearest(cmp, ms[k + 1], es[k].0, true, false, AnswerAt(es, k + 1))
  }

  lemma StepBack(cmp: Comparator, ms: seq<map<Bytes, Bytes>>, es: seq<Entry>, k: nat)
    requires StepsBack(cmp, ms, es) && k < |es|
    ensures Nearest(cmp, ms[k + 1], es[k].0, true, false, AnswerAt(es, k + 1))
  {
    hide Nearest;
    assert es[k] == es[k];
  }

  lemma EntryStored(cmp: Comparator, ms: seq<map<Bytes, Bytes>>, es: seq<Entry>, k: nat)
    requires StepsBack(cmp, ms, es) && k < |es|
    ensures es[k].0 in ms[k] && ms[k][es[k].0] == es[k].1
  {
    if k > 0 {
      StepBack(cmp, ms, es, k - 1);
    }
  }

  lemma {:induction false} EntriesDescend(cmp: Comparator, ms: seq<map<Bytes, Bytes>>, es: seq<Entry>, i: nat, j: nat)
    requires TotalOrder(cmp) && StepsBack(cmp, ms, es) && i < j < |es|
    ensures cmp(es[j].0, es[i].0) == Less
  {
    StepBack(cmp, ms, es, j - 1);
    if i < j - 1 {
      EntriesDescend(cmp, ms, es, i, j - 1);
    }
  }

  /** A key there from the start is shown by step k or still to come. */
  lemma {:induction false} KeyStillAhead(cmp: Comparator, ms: seq<map<Bytes, Bytes>>, es: seq<Entry>, y: Bytes, k: nat)
    requires TotalOrder(cmp) && MapsGrow(ms) && StepsBack(cmp, ms, es) && k < |es| && y in ms[0]
    ensures (exists i :: 0 <= i <= k && es[i].0 == y) || cmp(y, es[k].0) == Less
  {
    if k > 0 {
      KeyStillAhead(cmp, ms, es, y, k - 1);
      StepBack(cmp, ms, es, k - 1);
      assert Extends(ms[0], ms[k]);
      if cmp(y, es[k - 1].0) == Less {
        assert Wanted(cmp, es[k - 1].0, true, false, y);
      }
    }
  }

  lemma KeyIsShown(cmp: Comparator, ms: seq<map<Bytes, Bytes>>, es: seq<Entry>, y: Bytes)
    requires TotalOrder(cmp) && MapsGrow(ms) && StepsBack(cmp, ms, es) && y in ms[0]
    ensures exists i :: 0 <= i < |es| && es[i] == (y, ms[0][y])
  {
    if es != [] {
      var last := |es| - 1;
      KeyStillAhead(cmp, ms, es, y, last);
      StepBack(cmp, ms, es, last);
      assert Extends(ms[0], ms[|es|]);
      assert !Wanted(cmp, es[last].0, true, false, y);
      var i :| 0 <= i <= last && es[i].0 == y;
      EntryStored(cmp, ms, es, i);
      assert Extends(ms[0], ms[i]);
      assert es[i] == (y, ms[0][y]);
    }
  }

  // -------------------- on runs --------------------

  /** `os` are the calls of a traversal, made one after another, and `es` the entries they answered with. */
  ghost predicate BackCalls(s: State, os: seq<nat>, es: seq<Entry>) {
    && |os| == |es| + 1
    && (forall k {:trigger os[k]} :: 0 <= k < |os| ==>
          && os[k] in s.ops && Answered(s.ops[os[k]]) && s.ops[os[k]].pc.answer == SeekAnswer(AnswerAt(es, k))
          && s.ops[os[k]].call == if k == 0 then FindLast else FindNear(es[k - 1].0, true, false))
    && forall i, j {:trigger os[i], os[j]} :: 0 <= i < j < |os| ==> s.ops[os[i]].at < s.ops[os[j]].at
  }

  /** The map at a call's turn in the history. */
  ghost function MapAt(s: State, o: nat): map<Bytes, Bytes> {
    if o in s.ops && s.ops[o].at <= |s.log| then Replay(s.log[..s.ops[o].at]) else map[]
  }

  lemma {:induction false} ReplayGrows(log: seq<Event>, i: nat, j: nat)
    requires i <= j <= |log|
    ensures Extends(Replay(log[..i]), Replay(log[..j]))
  {
    if i < j {
      ReplayGrows(log, i, j - 1);
      assert log[..j][..j - 1] == log[..j - 1];
    }
  }

  lemma CallAnswers(cmp: Comparator, s: State, os: seq<nat>, es: seq<Entry>, k: nat)
    requires Inv(cmp, s) && BackCalls(s, os, es) && k < |os|
    ensures os[k] in s.ops && s.ops[os[k]].at < |s.log|
    ensures Legal(cmp, MapAt(s, os[k]), if k == 0 then FindLast
            else FindNear(es[k - 1].0, true, false), SeekAnswer(AnswerAt(es, k)))
  {
    hide Inv, Legal;
    assert os[k] == os[k];
    var at := AnsweredIsLogged(cmp, s, os[k]);
    LoggedIsLegal(cmp, s, at);
  }

  lemma TraversalSteps(cmp: Comparator, s: State, os: seq<nat>, es: seq<Entry>)
    requires Inv(cmp, s) && BackCalls(s, os, es)
    ensures var ms := seq(|os|, k requires 0 <= k < |os| => MapAt(s, os[k])); StepsBack(cmp, ms, es) && MapsGrow(ms)
  {
    hide Inv, Nearest, Greatest, Extends;
    var ms := seq(|os|, k requires 0 <= k < |os| => MapAt(s, os[k]));
    CallAnswers(cmp, s, os, es, 0);
    forall k | 0 <= k < |es| ensures Nearest(cmp, ms[k + 1], es[k].0, true, false, AnswerAt(es, k + 1)) {
      CallAnswers(cmp, s, os, es, k + 1);
    }
    forall i, j | 0 <= i <= j < |ms| ensures Extends(ms[i], ms[j]) {
      CallAnswers(cmp, s, os, es, i);
      CallAnswers(cmp, s, os, es, j);
      assert os[i] == os[i] && os[j] == os[j];
      ReplayGrows(s.log, s.ops[os[i]].at, s.ops[os[j]].at);
    }
  }

  /** Backward traversal among any number of writers: strictly descending, it shows every entry stored at the turn of
      its first call, and only entries stored at the turn of its last. */
  lemma CallScansAreFaithful(cmp: Comparator, capacity: nat, concurrent: bool, acts: seq<Action>, os: seq<nat>,
      es: seq<Entry>)
    requires TotalOrder(cmp) && capacity >= 192 && BackCalls(Run(cmp, capacity, concurrent, acts), os, es)
    ensures var s := Run(cmp, capacity, concurrent, acts);
            var first, last := MapAt(s, os[0]), MapAt(s, os[|es|]);
            && (forall i, j :: 0 <= i < j < |es| ==> cmp(es[j].0, es[i].0) == Less)
            && (forall y :: y in first ==> (y, first[y]) in es)
            && (forall e :: e in es ==> e.0 in last && last[e.0] == e.1)
  {
    RunInv(cmp, capacity, concurrent, acts);
    hide Run, Inv, MapAt;
    var s := Run(cmp, capacity, concurrent, acts);
    TraversalSteps(cmp, s, os, es);
    var ms := seq(|os|, k requires 0 <= k < |os| => MapAt(s, os[k]));
    hide BackCalls;
    ShowsAll(cmp, ms, es);
  }

  lemma ShowsAll(cmp: Comparator, ms: seq<map<Bytes, Bytes>>, es: seq<Entry>)
    requires TotalOrder(cmp) && MapsGrow(ms) && StepsBack(cmp, ms, es)
    ensures forall i, j :: 0 <= i < j < |es| ==> cmp(es[j].0, es[i].0) == Less
    ensures forall y :: y in ms[0] ==> (y, ms[0][y]) in es
    ensures forall e :: e in es ==> e.0 in ms[|es|] && ms[|es|][e.0] == e.1
  {
    assert |ms| == |es| + 1;
    hide StepsBack, TotalOrder;
    forall i, j | 0 <= i < j < |es| ensures cmp(es[j].0, es[i].0) == Less {
      EntriesDescend(cmp, ms, es, i, j);
    }
    forall y | y in ms[0] ensures (y, ms[0][y]) in es {
      KeyIsShown(cmp, ms, es, y);
    }
    forall e | e in es ensures e.0 in ms[|es|] && ms[|es|][e.0] == e.1 {
      var i :| 0 <= i < |es| && es[i] == e;
      EntryStored(cmp, ms, es, i);
      assert Extends(ms[i], ms[|es|]);
    }
  }
}
