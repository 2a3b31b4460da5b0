/**
 * The Fisher-Yates shuffle with its random choices passed in: ks[j] is the
 * index that the j-th call of the random generator returned.
 */
module Shuffling {

  /**
   * Choices for shuffling n elements: one per step for positions n-1 down to 1,
   * the j-th one in 0 .. n-1-j (the generator is asked for a number below n-j).
   */
  ghost predicate ValidSwaps(ks: seq<nat>, n: nat)
  {
    && |ks| == (if n > 0 then n - 1 else 0)
    && forall j :: 0 <= j < |ks| ==> ks[j] < n - j
  }

  /** Exchange the elements at i and j, in the order a temporary variable does it. */
  function Swap<T>(d: seq<T>, i: nat, j: nat): (r: seq<T>)
    requires i < |d| && j < |d|
    ensures |r| == |d| && r[i] == d[j] && r[j] == d[i]
    ensures forall m :: 0 <= m < |d| && m != i && m != j ==> r[m] == d[m]
  {
    seq(|d|, m requires 0 <= m < |d| => if m == j then d[i] else if m == i then d[j] else d[m])
  }

  /**
   * The deck after the first t steps of the shuffle loop: step j (counting
   * from 0) exchanges the element at ks[j] with the one at position |d|-1-j.
   */
  function ShuffleSteps<T>(d: seq<T>, ks: seq<nat>, t: nat): (r: seq<T>)
    requires ValidSwaps(ks, |d|) && t <= |ks|
    ensures |r| == |d|
    decreases t
  {
    if t == 0 then d else Swap(ShuffleSteps(d, ks, t - 1), ks[t - 1], |d| - t)
  }

  /** The deck that the shuffle makes of d for the choices ks: all of its steps. */
  function Shuffled<T>(d: seq<T>, ks: seq<nat>): (r: seq<T>)
    requires ValidSwaps(ks, |d|)
    ensures |r| == |d|
    ensures multiset(r) == multiset(d)
  {
    ShuffleStepsPermute(d, ks, |ks|);
    ShuffleSteps(d, ks, |ks|)
  }

  lemma SwapPermutes<T>(d: seq<T>, i: nat, j: nat)
    requires i < |d| && j < |d|
    ensures multiset(Swap(d, i, j)) == multiset(d)
  {
    var r := Swap(d, i, j);
    var e := d[i := d[j]];
    assert r == e[j := d[i]];
    if i != j {
      assert multiset(e) == multiset(d) - multiset{d[i]} + multiset{d[j]};
      assert multiset(r) == multiset(e) - multiset{d[j]} + multiset{d[i]};
    }
  }

  /** Every step only exchanges two elements, so the deck keeps its cards. */
  lemma {:induction false} ShuffleStepsPermute<T>(d: seq<T>, ks: seq<nat>, t: nat)
    requires ValidSwaps(ks, |d|) && t <= |ks|
    ensures multiset(ShuffleSteps(d, ks, t)) == multiset(d)
    decreases t
  {
    if t > 0 {
      var before := ShuffleSteps(d, ks, t - 1);
      ShuffleStepsPermute(d, ks, t - 1);
      assert ks[t - 1] < |d| - (t - 1);
      SwapPermutes(before, ks[t - 1], |d| - t);
      assert ShuffleSteps(d, ks, t) == Swap(before, ks[t - 1], |d| - t);
    }
  }

  /** Step t fixes position |d|-t for good: later steps only touch positions below it. */
  lemma {:induction false} ShuffleStepsFixSuffix<T>(d: seq<T>, ks: seq<nat>, t: nat, u: nat)
    requires ValidSwaps(ks, |d|) && t <= u <= |ks|
    ensures ShuffleSteps(d, ks, u)[|d| - t..] == ShuffleSteps(d, ks, t)[|d| - t..]
    decreases u
  {
    if u > t {
      ShuffleStepsFixSuffix(d, ks, t, u - 1);
    }
  }

  /** Choosing k = n at every step exchanges each element with itself. */
  lemma {:induction false} SelfSwapsKeepOrder<T>(d: seq<T>, ks: seq<nat>, t: nat)
    requires ValidSwaps(ks, |d|) && t <= |ks|
    requires forall j :: 0 <= j < |ks| ==> ks[j] == |d| - 1 - j
    ensures ShuffleSteps(d, ks, t) == d
    decreases t
  {
    if t > 0 {
      SelfSwapsKeepOrder(d, ks, t - 1);
    }
  }
}
