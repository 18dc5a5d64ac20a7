/** Tag permutation: `RandomState.shuffle` applied in place to rows of a
    replicate x gene indicator matrix. The random source is replaced by the
    draws it would make: shuffling a row of length n walks i from n - 1 down
    to 1 and swaps positions i and j for a drawn j in [0, i] (Fisher-Yates). */
module Permutation {

  /** Draw t of one shuffle is swapped with position n - 1 - t, so it lies in [0, n - 1 - t]. */
  predicate ValidDraws(n: nat, draws: seq<nat>)
  {
    |draws| == (if n == 0 then 0 else n - 1) &&
    forall t :: 0 <= t < |draws| ==> draws[t] <= n - 1 - t
  }

  /** s with positions i and j exchanged. */
  function Swap<T>(s: seq<T>, i: nat, j: nat): (r: seq<T>)
    requires i < |s| && j < |s|
    ensures |r| == |s|
  {
    seq(|s|, k requires 0 <= k < |s| => if k == i then s[j] else if k == j then s[i] else s[k])
  }

  lemma {:induction false} SwapPermutes<T>(s: seq<T>, i: nat, j: nat)
    requires i < |s| && j < |s|
    ensures multiset(Swap(s, i, j)) == multiset(s)
  {
    var u := s[i := s[j]];
    assert Swap(s, i, j) == u[j := s[i]];
    if i != j {
      assert multiset(u) == multiset(s) - multiset{s[i]} + multiset{s[j]};
      assert multiset(u[j := s[i]]) == multiset(u) - multiset{u[j]} + multiset{s[i]};
    }
  }

  /** The row after the first t swaps of the shuffle. */
  function ShuffleSteps<T>(s: seq<T>, draws: seq<nat>, t: nat): (r: seq<T>)
    requires ValidDraws(|s|, draws) && t <= |draws|
    ensures |r| == |s|
  {
    if t == 0 then s
    else Swap(ShuffleSteps(s, draws, t - 1), |s| - t, draws[t - 1])
  }

  /** The row after the whole shuffle. */
  function Shuffle<T>(s: seq<T>, draws: seq<nat>): (r: seq<T>)
    requires ValidDraws(|s|, draws)
    ensures |r| == |s|
  {
    ShuffleSteps(s, draws, |draws|)
  }

  /** Swap t of the shuffle keeps the elements of the row. */
  lemma {:induction false} ShuffleStepPermutes<T>(s: seq<T>, draws: seq<nat>, t: nat)
    requires ValidDraws(|s|, draws) && 0 < t <= |draws|
    ensures multiset(ShuffleSteps(s, draws, t)) == multiset(ShuffleSteps(s, draws, t - 1))
  {
    SwapPermutes(ShuffleSteps(s, draws, t - 1), |s| - t, draws[t - 1]);
  }

  lemma {:induction false} ShuffleStepsPermutes<T>(s: seq<T>, draws: seq<nat>, t: nat)
    requires ValidDraws(|s|, draws) && t <= |draws|
    ensures multiset(ShuffleSteps(s, draws, t)) == multiset(s)
    decreases t
  {
    if t > 0 {
      ShuffleStepsPermutes(s, draws, t - 1);
      ShuffleStepPermutes(s, draws, t);
    }
  }

  /** A shuffled row is a permutation of the row it came from. */
  lemma {:induction false} ShufflePermutes<T>(s: seq<T>, draws: seq<nat>)
    requires ValidDraws(|s|, draws)
    ensures multiset(Shuffle(s, draws)) == multiset(s)
  {
    ShuffleStepsPermutes(s, draws, |draws|);
  }

  function Row(a: array2<bool>, q: nat): (s: seq<bool>)
    requires q < a.Length0
    reads a
    ensures |s| == a.Length1
  {
    seq(a.Length1, j requires 0 <= j < a.Length1 reads a => a[q, j])
  }

  /** `np.tile(tag, (rows, 1))`: a fresh matrix whose every row is tag. */
  method Tile(tag: seq<bool>, rows: nat) returns (a: array2<bool>)
    ensures fresh(a) && a.Length0 == rows && a.Length1 == |tag|
    ensures forall q :: 0 <= q < rows ==> Row(a, q) == tag
  {
    a := new bool[rows, |tag|]((q, j) requires 0 <= j < |tag| => tag[j]);
  }

  /** Exchanges a[q, i] and a[q, j]; the other rows stay as they were. */
  method SwapInRow(a: array2<bool>, q: nat, i: nat, j: nat)
    requires q < a.Length0 && i < a.Length1 && j < a.Length1
    modifies a
    ensures Row(a, q) == Swap(old(Row(a, q)), i, j)
    ensures forall p, k :: 0 <= p < a.Length0 && p != q && 0 <= k < a.Length1 ==> a[p, k] == old(a[p, k])
  {
    var x, y := a[q, i], a[q, j];
    a[q, i] := y;
    a[q, j] := x;
    assert Row(a, q) == Swap(old(Row(a, q)), i, j) by {
      forall k | 0 <= k < a.Length1 ensures Row(a, q)[k] == Swap(old(Row(a, q)), i, j)[k] {}
    }
  }

  /** Swap t of the shuffle of row q: positions n - 1 - t and draws[t]. */
  method ShuffleStep(a: array2<bool>, q: nat, ghost s: seq<bool>, draws: seq<nat>, t: nat)
    requires q < a.Length0 && |s| == a.Length1 && ValidDraws(|s|, draws) && t < |draws|
    requires Row(a, q) == ShuffleSteps(s, draws, t)
    modifies a
    ensures Row(a, q) == ShuffleSteps(s, draws, t + 1)
    ensures forall p, k :: 0 <= p < a.Length0 && p != q && 0 <= k < a.Length1 ==> a[p, k] == old(a[p, k])
  {
    SwapInRow(a, q, a.Length1 - 1 - t, draws[t]);
  }

  /** `rs.shuffle(a[q])`: shuffles row q in place and leaves the other rows alone. */
  method ShuffleRow(a: array2<bool>, q: nat, draws: seq<nat>)
    requires q < a.Length0 && ValidDraws(a.Length1, draws)
    modifies a
    ensures Row(a, q) == Shuffle(old(Row(a, q)), draws)
    ensures forall p :: 0 <= p < a.Length0 && p != q ==> Row(a, p) == old(Row(a, p))
  {
    ghost var s := Row(a, q);
    for t := 0 to |draws|
      invariant Row(a, q) == ShuffleSteps(s, draws, t)
      invariant forall p, k :: 0 <= p < a.Length0 && p != q && 0 <= k < a.Length1 ==> a[p, k] == old(a[p, k])
    {
      ShuffleStep(a, q, s, draws, t);
    }
    forall p | 0 <= p < a.Length0 && p != q
      ensures Row(a, p) == old(Row(a, p))
    {
      assert forall k :: 0 <= k < a.Length1 ==> Row(a, p)[k] == old(Row(a, p))[k];
    }
  }

  /** Shuffles rows 0 .. count - 1 in place, row q with draws[q]; rows from count on stay as they were. */
  method ShuffleRows(a: array2<bool>, count: nat, draws: seq<seq<nat>>)
    requires count <= a.Length0 && |draws| == count
    requires forall q :: 0 <= q < count ==> ValidDraws(a.Length1, draws[q])
    modifies a
    ensures forall q :: 0 <= q < count ==> Row(a, q) == Shuffle(old(Row(a, q)), draws[q])
    ensures forall q :: count <= q < a.Length0 ==> Row(a, q) == old(Row(a, q))
  {
    for q := 0 to count
      invariant forall p :: 0 <= p < q ==> Row(a, p) == Shuffle(old(Row(a, p)), draws[p])
      invariant forall p :: q <= p < a.Length0 ==> Row(a, p) == old(Row(a, p))
    {
      ShuffleRow(a, q, draws[q]);
    }
  }

  /** The number of hits in an indicator, `np.sum(tag)`. */
  function HitCount(tag: seq<bool>): (r: nat)
    ensures r <= |tag|
    ensures r == |tag| <==> forall i :: 0 <= i < |tag| ==> tag[i]
  {
    if |tag| == 0 then 0
    else HitCount(tag[..|tag| - 1]) + (if tag[|tag| - 1] then 1 else 0)
  }

  lemma {:induction false} HitCountIsMultiplicity(tag: seq<bool>)
    ensures HitCount(tag) == multiset(tag)[true]
    decreases |tag|
  {
    if |tag| > 0 {
      assert tag == tag[..|tag| - 1] + [tag[|tag| - 1]];
      HitCountIsMultiplicity(tag[..|tag| - 1]);
    }
  }

  /** A shuffled indicator has as many hits as the one it came from. */
  lemma {:induction false} ShuffleKeepsHitCount(tag: seq<bool>, draws: seq<nat>)
    requires ValidDraws(|tag|, draws)
    ensures HitCount(Shuffle(tag, draws)) == HitCount(tag)
  {
    ShufflePermutes(tag, draws);
    HitCountIsMultiplicity(tag);
    HitCountIsMultiplicity(Shuffle(tag, draws));
  }
}
