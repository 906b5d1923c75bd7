/** Sums and bags over a sequence of actors.

    Every concurrent component of the model keeps its actors in a sequence and counts
    something about them: connections carried by pool clients, tasks in a given phase,
    readers waiting for a permit.  The lemmas say how a count moves when one actor steps. */
module Tally {

  datatype Option<+T> = None | Some(value: T)

  /** The total weight of the elements of xs. */
  function Sum<T>(xs: seq<T>, w: T -> nat): nat {
    if xs == [] then 0 else Sum(xs[..|xs| - 1], w) + w(xs[|xs| - 1])
  }

  lemma {:induction false} SumUpdate<T>(xs: seq<T>, w: T -> nat, i: nat, x: T)
    requires i < |xs|
    ensures Sum(xs[i := x], w) + w(xs[i]) == Sum(xs, w) + w(x)
  {
    var n := |xs| - 1;
    if i == n {
      assert xs[i := x][..n] == xs[..n];
    } else {
      assert xs[i := x][..n] == xs[..n][i := x];
      SumUpdate(xs[..n], w, i, x);
    }
  }

  lemma SumAppend<T>(xs: seq<T>, w: T -> nat, x: T)
    ensures Sum(xs + [x], w) == Sum(xs, w) + w(x)
  {
    assert (xs + [x])[..|xs|] == xs;
  }

  lemma {:induction false} SumAtLeast<T>(xs: seq<T>, w: T -> nat, i: nat)
    requires i < |xs|
    ensures w(xs[i]) <= Sum(xs, w)
  {
    if i < |xs| - 1 {
      SumAtLeast(xs[..|xs| - 1], w, i);
    }
  }

  lemma {:induction false} SumAtLeastTwo<T>(xs: seq<T>, w: T -> nat, i: nat, j: nat)
    requires i < j < |xs|
    ensures w(xs[i]) + w(xs[j]) <= Sum(xs, w)
  {
    if j == |xs| - 1 {
      SumAtLeast(xs[..|xs| - 1], w, i);
    } else {
      SumAtLeastTwo(xs[..|xs| - 1], w, i, j);
    }
  }

  /** A weight that is everywhere the sum of two others. */
  lemma {:induction false} SumSplit<T>(xs: seq<T>, w: T -> nat, u: T -> nat, v: T -> nat)
    requires forall i :: 0 <= i < |xs| ==> w(xs[i]) == u(xs[i]) + v(xs[i])
    ensures Sum(xs, w) == Sum(xs, u) + Sum(xs, v)
  {
    if xs != [] {
      SumSplit(xs[..|xs| - 1], w, u, v);
    }
  }

  /** A weight that is everywhere at most another. */
  lemma {:induction false} SumMonotone<T>(xs: seq<T>, w: T -> nat, u: T -> nat)
    requires forall i :: 0 <= i < |xs| ==> w(xs[i]) <= u(xs[i])
    ensures Sum(xs, w) <= Sum(xs, u)
  {
    if xs != [] {
      SumMonotone(xs[..|xs| - 1], w, u);
    }
  }

  lemma {:induction false} SumZero<T>(xs: seq<T>, w: T -> nat)
    requires forall i :: 0 <= i < |xs| ==> w(xs[i]) == 0
    ensures Sum(xs, w) == 0
  {
    if xs != [] {
      SumZero(xs[..|xs| - 1], w);
    }
  }

  function Removed<T>(xs: seq<T>, i: nat): seq<T>
    requires i < |xs|
  {
    xs[..i] + xs[i + 1..]
  }

  lemma RemovedButLast<T>(xs: seq<T>, i: nat)
    requires i < |xs|
    ensures var most := xs[..|xs| - 1];
            if i == |most| then Removed(xs, i) == most
            else |Removed(xs, i)| == |most| && Removed(xs, i)[..|most| - 1] == Removed(most, i)
                 && Removed(xs, i)[|most| - 1] == xs[|most|]
  {
  }

  lemma {:induction false} SumRemove<T>(xs: seq<T>, w: T -> nat, i: nat)
    requires i < |xs|
    ensures Sum(Removed(xs, i), w) + w(xs[i]) == Sum(xs, w)
  {
    RemovedButLast(xs, i);
    if i < |xs| - 1 {
      SumRemove(xs[..|xs| - 1], w, i);
    }
  }
}
