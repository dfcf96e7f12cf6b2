/** Small shared datatypes. */
module Common {
  datatype Option<+T> = None | Some(value: T)

  type byte = b: int | 0 <= b < 256
}

/** Sums of a weight over a sequence; the threads of a run are kept in such a sequence. */
module Totals {

  ghost function Total<P(!new)>(ps: seq<P>, w: P -> int): (r: int)
  {
    if ps == [] then 0 else w(ps[0]) + Total(ps[1..], w)
  }

  /** Replacing one element changes the sum by the difference of the two weights. */
  lemma {:induction false} TotalUpdate<P(!new)>(ps: seq<P>, i: nat, p: P, w: P -> int)
    requires i < |ps|
    ensures Total(ps[i := p], w) == Total(ps, w) - w(ps[i]) + w(p)
  {
    if i == 0 {
      assert ps[i := p][1..] == ps[1..];
    } else {
      assert ps[i := p][1..] == ps[1..][i - 1 := p];
      TotalUpdate(ps[1..], i - 1, p, w);
    }
  }

  lemma {:induction false} TotalAppend<P(!new)>(ps: seq<P>, p: P, w: P -> int)
    ensures Total(ps + [p], w) == Total(ps, w) + w(p)
  {
    if ps == [] {
      assert ps + [p] == [p];
    } else {
      assert (ps + [p])[1..] == ps[1..] + [p];
      TotalAppend(ps[1..], p, w);
    }
  }

  /** A sum of weights 0 and 1 lies between any one of its terms and the number of elements. */
  lemma {:induction false} TotalBounds<P(!new)>(ps: seq<P>, w: P -> int)
    requires forall p :: 0 <= w(p) <= 1
    ensures 0 <= Total(ps, w) <= |ps|
    ensures forall i :: 0 <= i < |ps| ==> w(ps[i]) <= Total(ps, w)
  {
    if ps != [] {
      TotalBounds(ps[1..], w);
      forall i | 0 <= i < |ps| ensures w(ps[i]) <= Total(ps, w) {
        if i > 0 { assert ps[i] == ps[1..][i - 1]; }
      }
    }
  }

  lemma {:induction false} TotalAtLeastTerm<P(!new)>(ps: seq<P>, w: P -> int, i: nat)
    requires i < |ps|
    requires forall p :: 0 <= w(p)
    ensures w(ps[i]) <= Total(ps, w)
  {
    TotalNonNegative(ps[1..], w);
    if i > 0 {
      assert ps[i] == ps[1..][i - 1];
      TotalAtLeastTerm(ps[1..], w, i - 1);
    }
  }

  lemma {:induction false} TotalNonNegative<P(!new)>(ps: seq<P>, w: P -> int)
    requires forall p :: 0 <= w(p)
    ensures 0 <= Total(ps, w)
  {
    if ps != [] { TotalNonNegative(ps[1..], w); }
  }

  lemma {:induction false} TotalAllZero<P(!new)>(ps: seq<P>, w: P -> int)
    requires forall i :: 0 <= i < |ps| ==> w(ps[i]) == 0
    ensures Total(ps, w) == 0
  {
    if ps != [] { TotalAllZero(ps[1..], w); }
  }
}

/** Sizes of finite sets of integers. */
module FiniteSets {
  function Range(lo: int, n: nat): (r: set<int>)
    ensures |r| == n && forall j :: j in r <==> lo <= j < lo + n
  {
    if n == 0 then {} else Range(lo, n - 1) + {lo + n - 1}
  }

  lemma {:induction false} SubsetOfRange(a: set<int>, lo: int, n: nat)
    requires a <= Range(lo, n)
    ensures |a| <= n
    ensures |a| == n ==> a == Range(lo, n)
  {
    if n > 0 {
      SubsetOfRange(a - {lo + n - 1}, lo, n - 1);
    }
  }
}
