/** Shared vocabulary of the model: optional values, the error a caller can
    provoke, and sums, extrema and threshold counts over sequences of reals. */
module Common {

  /** `None` stands for a value that numpy produces as NaN or infinity
      (a division by zero or the mean of an empty slice). */
  datatype Option<T> = None | Some(value: T)

  datatype Error =
    | NegativeWeight   // weighted_score_type < 0: logged, then sys.exit
    | UnboundLength    // weighted_score_type == 0 in the tensor path: N read before it is assigned
    | EmptyReduction   // np.max / np.min over a zero-length axis: ValueError
    | NoGeneSets       // np.vstack of an empty list of indicators: ValueError
    | NoPermutations   // np.apply_along_axis over a zero-length permutation axis: ValueError

  datatype Result<T> = Ok(value: T) | Err(error: Error)

  function Abs(x: real): (r: real)
    ensures r >= 0.0 && (r == x || r == -x)
  {
    if x < 0.0 then -x else x
  }

  /** x raised to a natural power; `Pow(x, 0) == 1.0` also for x == 0, like `0.0 ** 0`. */
  function Pow(x: real, n: nat): (r: real)
    ensures x >= 0.0 ==> r >= 0.0
  {
    if n == 0 then 1.0 else x * Pow(x, n - 1)
  }

  /** Sum from the left, as `np.sum` / `np.cumsum` accumulate. */
  function Sum(s: seq<real>): (r: real)
  {
    if |s| == 0 then 0.0 else Sum(s[..|s| - 1]) + s[|s| - 1]
  }

  /** The running sum: element i is the sum of the first i + 1 elements (`np.cumsum`). */
  function CumSum(s: seq<real>): (r: seq<real>)
    ensures |r| == |s|
  {
    seq(|s|, i requires 0 <= i < |s| => Sum(s[..i + 1]))
  }

  function Max(s: seq<real>): (r: real)
    requires |s| > 0
    ensures r in s && forall i :: 0 <= i < |s| ==> s[i] <= r
  {
    if |s| == 1 then s[0]
    else
      var m := Max(s[..|s| - 1]);
      assert forall i :: 0 <= i < |s| - 1 ==> s[i] == s[..|s| - 1][i];
      if s[|s| - 1] > m then s[|s| - 1] else m
  }

  function Min(s: seq<real>): (r: real)
    requires |s| > 0
    ensures r in s && forall i :: 0 <= i < |s| ==> r <= s[i]
  {
    if |s| == 1 then s[0]
    else
      var m := Min(s[..|s| - 1]);
      assert forall i :: 0 <= i < |s| - 1 ==> s[i] == s[..|s| - 1][i];
      if s[|s| - 1] < m then s[|s| - 1] else m
  }

  predicate Sorted(s: seq<real>)
  {
    forall i, j :: 0 <= i < j < |s| ==> s[i] <= s[j]
  }

  /** The comparisons `gsea_pval` and `gsea_significance` count with: `y < x`, `y <= x`, `y >= x`, `y > x`. */
  datatype Cmp = Lt | Le | Ge | Gt

  predicate Holds(y: real, c: Cmp, x: real)
  {
    match c
    case Lt => y < x
    case Le => y <= x
    case Ge => y >= x
    case Gt => y > x
  }

  /** The number of elements y of s with `Holds(y, c, x)`, as `np.sum(s < x)` etc. count. */
  function Count(s: seq<real>, c: Cmp, x: real): (r: nat)
    ensures r <= |s|
  {
    if |s| == 0 then 0
    else Count(s[..|s| - 1], c, x) + (if Holds(s[|s| - 1], c, x) then 1 else 0)
  }

  lemma {:induction false} CountConcat(s: seq<real>, t: seq<real>, c: Cmp, x: real)
    ensures Count(s + t, c, x) == Count(s, c, x) + Count(t, c, x)
    decreases |t|
  {
    if |t| == 0 {
      assert s + t == s;
    } else {
      assert (s + t)[..|s + t| - 1] == s + t[..|t| - 1];
      CountConcat(s, t[..|t| - 1], c, x);
    }
  }

  /** Removing the element at k lowers the count by that element's share. */
  lemma {:induction false} CountRemove(b: seq<real>, k: nat, c: Cmp, x: real)
    requires k < |b|
    ensures Count(b, c, x) == Count(b[..k] + b[k + 1..], c, x) + (if Holds(b[k], c, x) then 1 else 0)
  {
    assert b == b[..k] + ([b[k]] + b[k + 1..]);
    CountConcat(b[..k], [b[k]] + b[k + 1..], c, x);
    CountConcat([b[k]], b[k + 1..], c, x);
    CountConcat(b[..k], b[k + 1..], c, x);
    assert [b[k]][..0] == [];
  }

  lemma {:induction false} MultisetRemove<T>(b: seq<T>, k: nat)
    requires k < |b|
    ensures multiset(b[..k] + b[k + 1..]) == multiset(b) - multiset{b[k]}
  {
    assert b == b[..k] + [b[k]] + b[k + 1..];
  }

  /** A count does not depend on the order of the elements. */
  lemma {:induction false} CountPermutation(a: seq<real>, b: seq<real>, c: Cmp, x: real)
    requires multiset(a) == multiset(b)
    ensures Count(a, c, x) == Count(b, c, x)
    decreases |a|
  {
    if |a| == 0 {
      assert |b| == |multiset(b)| == 0;
    } else {
      var y := a[|a| - 1];
      var a' := a[..|a| - 1];
      assert Count(a, c, x) == Count(a', c, x) + (if Holds(y, c, x) then 1 else 0);
      assert multiset(a) == multiset(a') + multiset{y} by {
        assert a == a' + [y];
      }
      assert y in multiset(b);
      var k :| 0 <= k < |b| && b[k] == y;
      var b' := b[..k] + b[k + 1..];
      MultisetRemove(b, k);
      CountPermutation(a', b', c, x);
      CountRemove(b, k, c, x);
    }
  }

  /** Counting with a weaker condition gives at least as many elements:
      the numerator of a ratio of counts is at most its denominator. */
  lemma {:induction false} CountImplies(s: seq<real>, c1: Cmp, x1: real, c2: Cmp, x2: real)
    requires forall y :: Holds(y, c1, x1) ==> Holds(y, c2, x2)
    ensures Count(s, c1, x1) <= Count(s, c2, x2)
    decreases |s|
  {
    if |s| > 0 {
      CountImplies(s[..|s| - 1], c1, x1, c2, x2);
    }
  }

  /** An element of s that satisfies the condition is counted. */
  lemma {:induction false} CountMember(s: seq<real>, y: real, c: Cmp, x: real)
    requires y in s && Holds(y, c, x)
    ensures Count(s, c, x) >= 1
    decreases |s|
  {
    if s[|s| - 1] != y {
      assert y in s[..|s| - 1];
      CountMember(s[..|s| - 1], y, c, x);
    }
  }

  /** If exactly the first i elements satisfy the condition, the count is i. */
  lemma {:induction false} CountSplit(s: seq<real>, i: nat, c: Cmp, x: real)
    requires i <= |s|
    requires forall j :: 0 <= j < i ==> Holds(s[j], c, x)
    requires forall j :: i <= j < |s| ==> !Holds(s[j], c, x)
    ensures Count(s, c, x) == i
    decreases |s|
  {
    if |s| > 0 {
      var s' := s[..|s| - 1];
      if i == |s| {
        CountSplit(s', i - 1, c, x);
      } else {
        CountSplit(s', i, c, x);
      }
    }
  }

  /** Every element is either below x or at least x. */
  lemma {:induction false} CountComplement(s: seq<real>, x: real)
    ensures Count(s, Lt, x) + Count(s, Ge, x) == |s|
    decreases |s|
  {
    if |s| > 0 {
      CountComplement(s[..|s| - 1], x);
    }
  }

  /** A positive count has a witness. */
  lemma {:induction false} CountWitness(s: seq<real>, c: Cmp, x: real)
    requires Count(s, c, x) > 0
    ensures exists i :: 0 <= i < |s| && Holds(s[i], c, x)
    decreases |s|
  {
    if !Holds(s[|s| - 1], c, x) {
      CountWitness(s[..|s| - 1], c, x);
      var i :| 0 <= i < |s| - 1 && Holds(s[..|s| - 1][i], c, x);
      assert s[..|s| - 1][i] == s[i];
    }
  }

  /** Dividing by a positive number keeps order and equality. */
  lemma {:induction false} DivMonotone(a: real, b: real, n: real)
    requires n > 0.0
    ensures a <= b <==> a / n <= b / n
    ensures a == b <==> a / n == b / n
  {
    assert b / n - a / n == (b - a) / n;
    assert (b - a) / n * n == b - a;
  }
}
