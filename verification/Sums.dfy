/** Summing a weight over a finite set. */
module Sums {

  ghost function Sum<T(!new)>(s: set<T>, w: T -> nat): nat {
    if s == {} then 0
    else
      var x :| x in s;
      w(x) + Sum(s - {x}, w)
  }

  /** The order of summation does not matter. */
  lemma {:induction false} SumTakesOut<T(!new)>(s: set<T>, w: T -> nat, x: T)
    requires x in s
    ensures Sum(s, w) == w(x) + Sum(s - {x}, w)
  {
    var y :| y in s && Sum(s, w) == w(y) + Sum(s - {y}, w);
    if y != x {
      SumTakesOut(s - {y}, w, x);
      SumTakesOut(s - {x}, w, y);
      assert s - {y} - {x} == s - {x} - {y};
    }
  }

  lemma SumAdd<T(!new)>(s: set<T>, w: T -> nat, x: T)
    requires x !in s
    ensures Sum(s + {x}, w) == w(x) + Sum(s, w)
  {
    SumTakesOut(s + {x}, w, x);
    assert s + {x} - {x} == s;
  }

  lemma {:induction false} SumSameWeights<T(!new)>(s: set<T>, w: T -> nat, w': T -> nat)
    requires forall x :: x in s ==> w(x) == w'(x)
    ensures Sum(s, w) == Sum(s, w')
  {
    if s != {} {
      var x :| x in s;
      SumTakesOut(s, w, x);
      SumTakesOut(s, w', x);
      SumSameWeights(s - {x}, w, w');
    }
  }

  ghost function Elements<T>(q: seq<T>): set<T> {
    set x | x in q
  }

  lemma {:induction false} DistinctElements<T>(q: seq<T>)
    requires forall i, j :: 0 <= i < j < |q| ==> q[i] != q[j]
    ensures |Elements(q)| == |q|
  {
    if q == [] {
      assert Elements(q) == {};
    } else {
      var front, last := q[..|q| - 1], q[|q| - 1];
      DistinctElements(front);
      assert q == front + [last];
      assert Elements(q) == Elements(front) + {last};
    }
  }

  lemma SubsetIsSmaller<T>(a: set<T>, b: set<T>)
    requires a <= b
    ensures |a| <= |b|
  {
    assert b == a + (b - a);
  }
}
