/** Facts about sequences. The functions recurse on the last element because
    every history in the pipeline grows at its end. */
module Sequences {

  /** The concatenation of the members of `ss`. */
  function Flat<T>(ss: seq<seq<T>>): seq<T> {
    if ss == [] then [] else Flat(ss[..|ss| - 1]) + ss[|ss| - 1]
  }

  /** The elements that `keep` accepts, in order. */
  function Filter<T>(xs: seq<T>, keep: T -> bool): seq<T> {
    if xs == [] then []
    else Filter(xs[..|xs| - 1], keep) + if keep(xs[|xs| - 1]) then [xs[|xs| - 1]] else []
  }

  lemma FlatAppend<T>(ss: seq<seq<T>>, s: seq<T>)
    ensures Flat(ss + [s]) == Flat(ss) + s
  {
    assert (ss + [s])[..|ss|] == ss;
  }

  /** The head of a queue moves behind what was taken from it before. */
  lemma HeadMoves<T>(all: seq<T>, taken: seq<T>, queue: seq<T>)
    requires all == taken + queue && queue != []
    ensures all == (taken + [queue[0]]) + queue[1..]
  {
  }

  lemma Associative<T>(a: seq<T>, b: seq<T>, c: seq<T>)
    ensures (a + b) + c == a + (b + c)
  {
  }

  lemma {:induction false} FlatConcat<T>(ss: seq<seq<T>>, tt: seq<seq<T>>)
    ensures Flat(ss + tt) == Flat(ss) + Flat(tt)
  {
    if tt == [] {
      assert ss + tt == ss;
    } else {
      hide Flat;
      var front, last := tt[..|tt| - 1], tt[|tt| - 1];
      FlatConcat(ss, front);
      assert ss + tt == (ss + front) + [last] && tt == front + [last];
      FlatAppend(ss + front, last);
      FlatAppend(front, last);
      Associative(Flat(ss), Flat(front), last);
    }
  }

  lemma FilterAppend<T>(xs: seq<T>, x: T, keep: T -> bool)
    ensures Filter(xs + [x], keep) == Filter(xs, keep) + if keep(x) then [x] else []
  {
    assert (xs + [x])[..|xs|] == xs;
  }

  lemma {:induction false} FilterConcat<T>(xs: seq<T>, ys: seq<T>, keep: T -> bool)
    ensures Filter(xs + ys, keep) == Filter(xs, keep) + Filter(ys, keep)
  {
    if ys == [] {
      assert xs + ys == xs;
    } else {
      hide Filter;
      var front, last := ys[..|ys| - 1], ys[|ys| - 1];
      FilterConcat(xs, front, keep);
      assert xs + ys == (xs + front) + [last];
      FilterAppend(xs + front, last, keep);
      FilterAppend(front, last, keep);
      assert ys == front + [last];
    }
  }

  /** Sum of a measure over a sequence. */
  function Sum<T>(xs: seq<T>, measure: T -> nat): nat {
    if xs == [] then 0 else Sum(xs[..|xs| - 1], measure) + measure(xs[|xs| - 1])
  }

  lemma {:induction false} SumUpdate<T>(xs: seq<T>, i: nat, x: T, measure: T -> nat)
    requires i < |xs|
    ensures Sum(xs[i := x], measure) == Sum(xs, measure) - measure(xs[i]) + measure(x)
  {
    var n := |xs| - 1;
    if i == n {
      assert xs[i := x][..n] == xs[..n];
    } else {
      assert xs[i := x][..n] == xs[..n][i := x];
      SumUpdate(xs[..n], i, x, measure);
    }
  }

  lemma {:induction false} SumBound<T>(xs: seq<T>, bound: nat, measure: T -> nat)
    requires forall i :: 0 <= i < |xs| ==> measure(xs[i]) <= bound
    ensures Sum(xs, measure) <= |xs| * bound
  {
    if xs != [] {
      SumBound(xs[..|xs| - 1], bound, measure);
      assert |xs| * bound == (|xs| - 1) * bound + bound;
    }
  }

  lemma {:induction false} SumZero<T>(xs: seq<T>, measure: T -> nat)
    requires forall i :: 0 <= i < |xs| ==> measure(xs[i]) == 0
    ensures Sum(xs, measure) == 0
  {
    if xs != [] {
      SumZero(xs[..|xs| - 1], measure);
    }
  }

  function Total(xs: seq<nat>): nat {
    if xs == [] then 0 else Total(xs[..|xs| - 1]) + xs[|xs| - 1]
  }

  /** Raising entry `k`, if there is one, raises the total. */
  lemma {:induction false} TotalBump(xs: seq<nat>, ys: seq<nat>, k: nat, d: nat)
    requires |xs| == |ys|
    requires forall i :: 0 <= i < |xs| ==> ys[i] == xs[i] + if i == k then d else 0
    ensures Total(ys) == Total(xs) + if k < |xs| then d else 0
  {
    if xs != [] {
      TotalBump(xs[..|xs| - 1], ys[..|ys| - 1], k, d);
    }
  }

  lemma {:induction false} TotalZero(xs: seq<nat>)
    requires forall i :: 0 <= i < |xs| ==> xs[i] == 0
    ensures Total(xs) == 0
  {
    if xs != [] {
      TotalZero(xs[..|xs| - 1]);
    }
  }

  lemma {:induction false} TotalMonotone(xs: seq<nat>, ys: seq<nat>)
    requires |xs| == |ys|
    requires forall i :: 0 <= i < |xs| ==> xs[i] <= ys[i]
    ensures Total(xs) <= Total(ys)
  {
    if xs != [] {
      TotalMonotone(xs[..|xs| - 1], ys[..|ys| - 1]);
    }
  }
}
