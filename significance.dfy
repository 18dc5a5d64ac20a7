/** Nominal p-values (`gsea_pval`), normalised enrichment scores (`normalize` and
    the NES block of `gsea_significance`) and FDR q-values (the FDR loop of
    `gsea_significance`). */
module Significance {
  import opened Common
  import opened Search

  lemma {:induction false} DivSign(a: real, n: real)
    requires n > 0.0
    ensures a / n > 0.0 <==> a > 0.0
    ensures a / n == 0.0 <==> a == 0.0
    ensures a / n < 0.0 <==> a < 0.0
  {
    DivMonotone(a, 0.0, n);
    DivMonotone(0.0, a, n);
    assert 0.0 / n == 0.0;
  }

  lemma {:induction false} SelfQuotient(b: real)
    requires b > 0.0
    ensures b / b == 1.0
  {
  }

  /** A part of a positive count is a fraction in [0, 1]. */
  lemma {:induction false} Share(part: nat, whole: nat)
    requires part <= whole && whole > 0
    ensures 0.0 <= part as real / whole as real <= 1.0
  {
    DivSign(part as real, whole as real);
    DivMonotone(part as real, whole as real, whole as real);
    SelfQuotient(whole as real);
  }

  /** `gsea_pval` for one gene set: for ES < 0 the share of the negative nulls that lie
      below ES, otherwise the share of the non-negative nulls at or above ES; `None` where
      numpy divides by a zero count. */
  function PValue(es: real, nulls: seq<real>): (r: Option<real>)
    ensures r.None? <==> (if es < 0.0 then Count(nulls, Lt, 0.0) == 0 else Count(nulls, Ge, 0.0) == 0)
    ensures r.Some? ==> 0.0 <= r.value <= 1.0
  {
    if es < 0.0 then
      if Count(nulls, Lt, 0.0) == 0 then None
      else
        CountImplies(nulls, Lt, es, Lt, 0.0);
        Share(Count(nulls, Lt, es), Count(nulls, Lt, 0.0));
        Some(Count(nulls, Lt, es) as real / Count(nulls, Lt, 0.0) as real)
    else
      if Count(nulls, Ge, 0.0) == 0 then None
      else
        CountImplies(nulls, Ge, es, Ge, 0.0);
        Share(Count(nulls, Ge, es), Count(nulls, Ge, 0.0));
        Some(Count(nulls, Ge, es) as real / Count(nulls, Ge, 0.0) as real)
  }

  /** A score further from zero, on the same side, has a p-value no larger. */
  lemma {:induction false} PValueMonotone(a: real, b: real, nulls: seq<real>)
    requires 0.0 <= a <= b || b <= a < 0.0
    requires PValue(a, nulls).Some?
    ensures PValue(b, nulls).Some? && PValue(b, nulls).value <= PValue(a, nulls).value
  {
    if a >= 0.0 {
      CountImplies(nulls, Ge, b, Ge, a);
      DivMonotone(Count(nulls, Ge, b) as real, Count(nulls, Ge, a) as real, Count(nulls, Ge, 0.0) as real);
    } else {
      CountImplies(nulls, Lt, b, Lt, a);
      DivMonotone(Count(nulls, Lt, b) as real, Count(nulls, Lt, a) as real, Count(nulls, Lt, 0.0) as real);
    }
  }

  /** `enrNull[enrNull >= 0]`, in order. */
  function NonNegatives(s: seq<real>): (r: seq<real>)
    ensures |r| == Count(s, Ge, 0.0)
    ensures forall y :: y in r <==> y in s && y >= 0.0
  {
    if |s| == 0 then []
    else
      var n := |s| - 1;
      assert s == s[..n] + [s[n]];
      NonNegatives(s[..n]) + (if s[n] >= 0.0 then [s[n]] else [])
  }

  /** `enrNull[enrNull < 0]`, in order. */
  function Negatives(s: seq<real>): (r: seq<real>)
    ensures |r| == Count(s, Lt, 0.0)
    ensures forall y :: y in r <==> y in s && y < 0.0
  {
    if |s| == 0 then []
    else
      var n := |s| - 1;
      assert s == s[..n] + [s[n]];
      Negatives(s[..n]) + (if s[n] < 0.0 then [s[n]] else [])
  }

  /** `np.mean`; `None` for the NaN numpy returns on an empty slice. */
  function Mean(s: seq<real>): (r: Option<real>)
    ensures r.Some? <==> |s| > 0
  {
    if |s| == 0 then None else Some(Sum(s) / |s| as real)
  }

  /** The mean of the non-negative nulls of one set. */
  function MeanPos(row: seq<real>): (r: Option<real>)
    ensures r.Some? <==> Count(row, Ge, 0.0) > 0
  {
    Mean(NonNegatives(row))
  }

  /** The mean of the negative nulls of one set. */
  function MeanNeg(row: seq<real>): (r: Option<real>)
    ensures r.Some? <==> Count(row, Lt, 0.0) > 0
  {
    Mean(Negatives(row))
  }

  lemma {:induction false} SumNonNegative(s: seq<real>)
    requires forall i :: 0 <= i < |s| ==> s[i] >= 0.0
    ensures Sum(s) >= 0.0
    ensures Sum(s) == 0.0 <==> forall i :: 0 <= i < |s| ==> s[i] == 0.0
    decreases |s|
  {
    if |s| > 0 {
      var n := |s| - 1;
      SumNonNegative(s[..n]);
      assert forall i :: 0 <= i < n ==> s[..n][i] == s[i];
    }
  }

  lemma {:induction false} SumNegative(s: seq<real>)
    requires |s| > 0 && forall i :: 0 <= i < |s| ==> s[i] < 0.0
    ensures Sum(s) < 0.0
    decreases |s|
  {
    var n := |s| - 1;
    if n > 0 {
      SumNegative(s[..n]);
    }
  }

  /** The mean of the non-negative nulls exists when there is one, is never negative,
      and is positive exactly when some null is positive. */
  lemma {:induction false} MeanPosSign(row: seq<real>)
    ensures MeanPos(row).Some? <==> Count(row, Ge, 0.0) > 0
    ensures MeanPos(row).Some? ==>
      MeanPos(row).value >= 0.0 && (MeanPos(row).value > 0.0 <==> Count(row, Gt, 0.0) > 0)
  {
    var r := NonNegatives(row);
    if |r| > 0 {
      assert forall i :: 0 <= i < |r| ==> r[i] in r;
      SumNonNegative(r);
      DivSign(Sum(r), |r| as real);
      if Count(row, Gt, 0.0) > 0 {
        CountWitness(row, Gt, 0.0);
        var i :| 0 <= i < |row| && row[i] > 0.0;
        assert row[i] in r;
      }
      if Sum(r) > 0.0 {
        var i :| 0 <= i < |r| && r[i] != 0.0;
        assert r[i] in r;
        CountMember(row, r[i], Gt, 0.0);
      }
    }
  }

  /** The mean of the negative nulls exists when there is one, and is then negative. */
  lemma {:induction false} MeanNegSign(row: seq<real>)
    ensures MeanNeg(row).Some? <==> Count(row, Lt, 0.0) > 0
    ensures MeanNeg(row).Some? ==> MeanNeg(row).value < 0.0
  {
    var r := Negatives(row);
    if |r| > 0 {
      assert forall i :: 0 <= i < |r| ==> r[i] in r;
      SumNegative(r);
      DivSign(Sum(r), |r| as real);
    }
  }

  /** The per-set loop of `gsea_significance` that collects the two null means of every set. */
  method NullMeans(esnull: seq<seq<real>>) returns (meanPos: seq<Option<real>>, meanNeg: seq<Option<real>>)
    ensures |meanPos| == |esnull| && |meanNeg| == |esnull|
    ensures forall i :: 0 <= i < |esnull| ==> meanPos[i] == MeanPos(esnull[i]) && meanNeg[i] == MeanNeg(esnull[i])
  {
    meanPos, meanNeg := [], [];
    for i := 0 to |esnull|
      invariant |meanPos| == i && |meanNeg| == i
      invariant forall q :: 0 <= q < i ==> meanPos[q] == MeanPos(esnull[q]) && meanNeg[q] == MeanNeg(esnull[q])
    {
      meanPos := meanPos + [MeanPos(esnull[i])];
      meanNeg := meanNeg + [MeanNeg(esnull[i])];
    }
  }

  /** a divided by a numpy mean: `None` (NaN or infinity) when the mean is NaN or zero. */
  function DivideBy(a: real, m: Option<real>): (r: Option<real>)
  {
    if m.None? || m.value == 0.0 then None else Some(a / m.value)
  }

  /** The `np.select` of `gsea_significance`: x / meanPos for x >= 0, -x / meanNeg otherwise. */
  function NormalizedScore(x: real, meanPos: Option<real>, meanNeg: Option<real>): (r: Option<real>)
    ensures r.Some? <==> if x >= 0.0 then meanPos.Some? && meanPos.value != 0.0
                         else meanNeg.Some? && meanNeg.value != 0.0
    ensures r.Some? && x >= 0.0 ==> r.value * meanPos.value == x
    ensures r.Some? && x < 0.0 ==> r.value * meanNeg.value == -x
  {
    if x >= 0.0 then DivideBy(x, meanPos) else DivideBy(-x, meanNeg)
  }

  lemma {:induction false} NonNegativeNormalized(x: real, row: seq<real>)
    requires x >= 0.0
    ensures var r := NormalizedScore(x, MeanPos(row), MeanNeg(row));
      (r.Some? <==> Count(row, Gt, 0.0) > 0) && (r.Some? ==> r.value >= 0.0 && (r.value == 0.0 <==> x == 0.0))
  {
    MeanPosSign(row);
    if Count(row, Gt, 0.0) > 0 {
      CountImplies(row, Gt, 0.0, Ge, 0.0);
      DivSign(x, MeanPos(row).value);
    }
  }

  lemma {:induction false} NegativeNormalized(x: real, row: seq<real>)
    requires x < 0.0
    ensures var r := NormalizedScore(x, MeanPos(row), MeanNeg(row));
      (r.Some? <==> Count(row, Lt, 0.0) > 0) && (r.Some? ==> r.value < 0.0)
  {
    MeanNegSign(row);
    if Count(row, Lt, 0.0) > 0 {
      var m := MeanNeg(row).value;
      DivSign(-x, -m);
      assert -x / m == -(-x / -m);
    }
  }

  /** Normalising against a set's own null means is defined exactly when a mean of the
      score's sign exists and is non-zero, and then keeps the score's sign and its zeros. */
  lemma {:induction false} NormalizedKeepsSign(x: real, row: seq<real>)
    ensures var r := NormalizedScore(x, MeanPos(row), MeanNeg(row));
      (r.Some? <==> if x >= 0.0 then Count(row, Gt, 0.0) > 0 else Count(row, Lt, 0.0) > 0) &&
      (r.Some? ==> (r.value >= 0.0 <==> x >= 0.0) && (r.value == 0.0 <==> x == 0.0))
  {
    if x >= 0.0 {
      NonNegativeNormalized(x, row);
    } else {
      NegativeNormalized(x, row);
    }
  }

  /** `normalize(es, enrNull)`: 0.0 for ES == 0; otherwise ES over the mean of the non-negative
      nulls, or -ES over the mean of the negative nulls. A zero or missing mean gives NaN or
      infinity under numpy's division (no exception is raised), here `None`. */
  function Normalize(es: real, enrNull: seq<real>): (r: Option<real>)
    ensures es == 0.0 ==> r == Some(0.0)
    ensures r.None? <==> (es > 0.0 && Count(enrNull, Gt, 0.0) == 0) || (es < 0.0 && Count(enrNull, Lt, 0.0) == 0)
    ensures r.Some? ==> (r.value > 0.0 <==> es > 0.0) && (r.value < 0.0 <==> es < 0.0)
  {
    NormalizedKeepsSign(es, enrNull);
    if es == 0.0 then Some(0.0)
    else if es >= 0.0 then DivideBy(es, MeanPos(enrNull))
    else DivideBy(-es, MeanNeg(enrNull))
  }

  /** Away from zero `normalize` agrees with the NES of `gsea_significance`; at zero the NES is
      0.0 too unless the set has no positive null. */
  lemma {:induction false} NormalizeMatchesNes(es: real, enrNull: seq<real>)
    ensures es != 0.0 ==> Normalize(es, enrNull) == NormalizedScore(es, MeanPos(enrNull), MeanNeg(enrNull))
    ensures es == 0.0 ==>
      NormalizedScore(es, MeanPos(enrNull), MeanNeg(enrNull)) == if Count(enrNull, Gt, 0.0) > 0 then Some(0.0) else None
  {
    NormalizedKeepsSign(es, enrNull);
  }

  /** Every non-negative null of the row has a positive mean to be divided by. */
  predicate NullsNormalizable(row: seq<real>)
  {
    Count(row, Ge, 0.0) > 0 ==> Count(row, Gt, 0.0) > 0
  }

  /** The NES of score x and of every null of its row are finite. */
  predicate Normalizable(x: real, row: seq<real>)
  {
    NullsNormalizable(row) &&
    (x >= 0.0 ==> Count(row, Gt, 0.0) > 0) &&
    (x < 0.0 ==> Count(row, Lt, 0.0) > 0)
  }

  lemma {:induction false} NullNormalizable(row: seq<real>, k: nat)
    requires NullsNormalizable(row) && k < |row|
    ensures var r := NormalizedScore(row[k], MeanPos(row), MeanNeg(row));
      r.Some? && (r.value >= 0.0 <==> row[k] >= 0.0)
  {
    NormalizedKeepsSign(row[k], row);
    if row[k] >= 0.0 {
      CountMember(row, row[k], Ge, 0.0);
    } else {
      CountMember(row, row[k], Lt, 0.0);
    }
  }

  /** The NES of observed score x against its own row of nulls. */
  function Nes(x: real, row: seq<real>): (r: real)
    requires Normalizable(x, row)
    ensures r >= 0.0 <==> x >= 0.0
    ensures r == 0.0 <==> x == 0.0
  {
    NormalizedKeepsSign(x, row);
    NormalizedScore(x, MeanPos(row), MeanNeg(row)).value
  }

  /** `np.select` over one row of nulls with the row's two means. */
  function Normalized(row: seq<real>, meanPos: Option<real>, meanNeg: Option<real>): (r: seq<real>)
    requires forall k :: 0 <= k < |row| ==> NormalizedScore(row[k], meanPos, meanNeg).Some?
    ensures |r| == |row|
    ensures forall k :: 0 <= k < |row| ==> Some(r[k]) == NormalizedScore(row[k], meanPos, meanNeg)
  {
    seq(|row|, k requires 0 <= k < |row| => NormalizedScore(row[k], meanPos, meanNeg).value)
  }

  /** The normalised nulls of one row, each divided by the row's mean of its own sign. */
  function NullNes(row: seq<real>): (r: seq<real>)
    requires NullsNormalizable(row)
    ensures |r| == |row|
    ensures forall k :: 0 <= k < |row| ==> (r[k] >= 0.0 <==> row[k] >= 0.0)
  {
    assert forall k :: 0 <= k < |row| ==>
      NormalizedScore(row[k], MeanPos(row), MeanNeg(row)).Some? &&
      (NormalizedScore(row[k], MeanPos(row), MeanNeg(row)).value >= 0.0 <==> row[k] >= 0.0) by {
      forall k | 0 <= k < |row|
        ensures NormalizedScore(row[k], MeanPos(row), MeanNeg(row)).Some?
        ensures NormalizedScore(row[k], MeanPos(row), MeanNeg(row)).value >= 0.0 <==> row[k] >= 0.0
      {
        NullNormalizable(row, k);
      }
    }
    Normalized(row, MeanPos(row), MeanNeg(row))
  }

  predicate AllNormalizable(es: seq<real>, esnull: seq<seq<real>>)
  {
    |esnull| == |es| && forall i :: 0 <= i < |es| ==> Normalizable(es[i], esnull[i])
  }

  /** `nEnrichmentScores`. */
  function AllNes(es: seq<real>, esnull: seq<seq<real>>): (r: seq<real>)
    requires AllNormalizable(es, esnull)
    ensures |r| == |es|
  {
    seq(|es|, i requires 0 <= i < |es| => Nes(es[i], esnull[i]))
  }

  /** `nEnrichmentNulls`. */
  function AllNullNes(es: seq<real>, esnull: seq<seq<real>>): (r: seq<seq<real>>)
    requires AllNormalizable(es, esnull)
    ensures |r| == |esnull|
  {
    seq(|es|, i requires 0 <= i < |es| => NullNes(esnull[i]))
  }

  /** `flatten()`: the rows one after another. */
  function Flatten(rows: seq<seq<real>>): (r: seq<real>)
  {
    if |rows| == 0 then [] else Flatten(rows[..|rows| - 1]) + rows[|rows| - 1]
  }

  /** Two sequences whose elements have the same signs, position by position, have the
      same numbers of non-negative and of negative elements. */
  lemma {:induction false} SameSignCounts(a: seq<real>, b: seq<real>)
    requires |a| == |b| && forall k :: 0 <= k < |a| ==> (a[k] >= 0.0 <==> b[k] >= 0.0)
    ensures Count(a, Ge, 0.0) == Count(b, Ge, 0.0) && Count(a, Lt, 0.0) == Count(b, Lt, 0.0)
    decreases |a|
  {
    if |a| > 0 {
      SameSignCounts(a[..|a| - 1], b[..|b| - 1]);
    }
  }

  lemma {:induction false} FlattenSameSignCounts(a: seq<seq<real>>, b: seq<seq<real>>)
    requires |a| == |b|
    requires forall i :: 0 <= i < |a| ==> |a[i]| == |b[i]|
    requires forall i, k :: 0 <= i < |a| && 0 <= k < |a[i]| ==> (a[i][k] >= 0.0 <==> b[i][k] >= 0.0)
    ensures Count(Flatten(a), Ge, 0.0) == Count(Flatten(b), Ge, 0.0)
    ensures Count(Flatten(a), Lt, 0.0) == Count(Flatten(b), Lt, 0.0)
    decreases |a|
  {
    if |a| > 0 {
      var n := |a| - 1;
      FlattenSameSignCounts(a[..n], b[..n]);
      SameSignCounts(a[n], b[n]);
      CountConcat(Flatten(a[..n]), a[n], Ge, 0.0);
      CountConcat(Flatten(b[..n]), b[n], Ge, 0.0);
      CountConcat(Flatten(a[..n]), a[n], Lt, 0.0);
      CountConcat(Flatten(b[..n]), b[n], Lt, 0.0);
    }
  }

  /** What `gsea_significance` appends when a division fails. */
  const Sentinel: real := 1000000000.0

  /** One q-value from the four counts: `pi_norm / pi_obs` capped at 1.0, or the sentinel
      where Python's float division raises ZeroDivisionError. */
  function FdrRatio(allHigherAndPos: nat, allPos: nat, nesHigherAndPos: nat, nesPos: nat): (r: real)
    ensures allPos == 0 || nesPos == 0 || nesHigherAndPos == 0 ==> r == Sentinel
    ensures r == Sentinel || 0.0 <= r <= 1.0
  {
    if allPos == 0 || nesPos == 0 then Sentinel
    else
      var piNorm := allHigherAndPos as real / allPos as real;
      var piObs := nesHigherAndPos as real / nesPos as real;
      if piObs == 0.0 then Sentinel
      else if piNorm / piObs < 1.0 then piNorm / piObs
      else 1.0
  }

  /** The q-value of NES x against the pooled normalised nulls and the observed NES, as
      counts: for x >= 0 over the non-negative values, those at or above x; for x < 0 over
      the negative values, those at or below x. */
  function Fdr(x: real, pool: seq<real>, observed: seq<real>): (r: real)
    ensures r == Sentinel || 0.0 <= r <= 1.0
  {
    if x >= 0.0 then
      FdrRatio(Count(pool, Ge, x), Count(pool, Ge, 0.0), Count(observed, Ge, x), Count(observed, Ge, 0.0))
    else
      FdrRatio(Count(pool, Le, x), Count(pool, Lt, 0.0), Count(observed, Le, x), Count(observed, Lt, 0.0))
  }

  lemma {:induction false} QuotientNonNegative(a: real, b: real)
    requires a >= 0.0 && b > 0.0
    ensures a / b >= 0.0
  {
    DivSign(a, b);
  }

  /** An observed NES counts itself, so the q-value is the sentinel exactly when no pooled
      null has its sign, and lies in [0, 1] otherwise. */
  lemma {:induction false} FdrBounds(x: real, pool: seq<real>, observed: seq<real>)
    requires x in observed
    ensures Fdr(x, pool, observed) == Sentinel <==>
      (if x >= 0.0 then Count(pool, Ge, 0.0) == 0 else Count(pool, Lt, 0.0) == 0)
    ensures Fdr(x, pool, observed) != Sentinel ==> 0.0 <= Fdr(x, pool, observed) <= 1.0
  {
    var c1, c2 := if x >= 0.0 then Ge else Lt, if x >= 0.0 then Ge else Le;
    var allHigher, allPos := Count(pool, c2, x), Count(pool, c1, 0.0);
    var nesHigher, nesPos := Count(observed, c2, x), Count(observed, c1, 0.0);
    assert Fdr(x, pool, observed) == FdrRatio(allHigher, allPos, nesHigher, nesPos);
    CountMember(observed, x, c2, x);
    CountImplies(observed, c2, x, c1, 0.0);
    if allPos > 0 {
      QuotientNonNegative(allHigher as real, allPos as real);
      QuotientNonNegative(nesHigher as real, nesPos as real);
      DivSign(nesHigher as real, nesPos as real);
      QuotientNonNegative(allHigher as real / allPos as real, nesHigher as real / nesPos as real);
    }
  }

  /** The q-value of one NES x from the sorted pooled nulls and the sorted observed NES. */
  method FdrOf(x: real, nvals: seq<real>, nnes: seq<real>, ghost nulls: seq<real>, ghost nes: seq<real>)
    returns (q: real)
    requires Sorted(nvals) && multiset(nvals) == multiset(nulls)
    requires Sorted(nnes) && multiset(nnes) == multiset(nes)
    ensures q == Fdr(x, nulls, nes)
  {
    var allPos, allHigherAndPos, nesPos, nesHigherAndPos;
    if x >= 0.0 {
      var a := SearchSortedLeft(nvals, 0.0);
      var b := SearchSortedLeft(nvals, x);
      var c := SearchSortedLeft(nnes, 0.0);
      var d := SearchSortedLeft(nnes, x);
      AtLeastCount(nvals, nulls, 0.0);
      AtLeastCount(nvals, nulls, x);
      AtLeastCount(nnes, nes, 0.0);
      AtLeastCount(nnes, nes, x);
      allPos, allHigherAndPos, nesPos, nesHigherAndPos := |nvals| - a, |nvals| - b, |nnes| - c, |nnes| - d;
    } else {
      allPos := SearchSortedLeft(nvals, 0.0);
      allHigherAndPos := SearchSortedRight(nvals, x);
      nesPos := SearchSortedLeft(nnes, 0.0);
      nesHigherAndPos := SearchSortedRight(nnes, x);
      CountPermutation(nvals, nulls, Lt, 0.0);
      CountPermutation(nvals, nulls, Le, x);
      CountPermutation(nnes, nes, Lt, 0.0);
      CountPermutation(nnes, nes, Le, x);
    }
    q := FdrRatio(allHigherAndPos, allPos, nesHigherAndPos, nesPos);
  }

  /** `len(a) - searchsorted(a, x)` counts the elements at or above x, in any order. */
  lemma {:induction false} AtLeastCount(sorted: seq<real>, s: seq<real>, x: real)
    requires multiset(sorted) == multiset(s)
    ensures |sorted| == |s| && |sorted| - Count(sorted, Lt, x) == Count(s, Ge, x)
  {
    assert |sorted| == |multiset(sorted)| == |s|;
    CountComplement(sorted, x);
    CountPermutation(sorted, s, Ge, x);
  }

  /** The FDR loop of `gsea_significance`: sorts the pooled nulls and the observed NES once,
      then takes the four counts of each NES with `searchsorted`. */
  method Fdrs(nes: seq<real>, nulls: seq<real>) returns (fdrs: seq<real>)
    ensures |fdrs| == |nes|
    ensures forall i :: 0 <= i < |nes| ==> fdrs[i] == Fdr(nes[i], nulls, nes)
  {
    var nvals := SortReals(nulls);
    var nnes := SortReals(nes);
    fdrs := [];
    for i := 0 to |nes|
      invariant |fdrs| == i
      invariant forall q :: 0 <= q < i ==> fdrs[q] == Fdr(nes[q], nulls, nes)
    {
      var q := FdrOf(nes[i], nvals, nnes, nulls, nes);
      fdrs := fdrs + [q];
    }
  }

  /** With the means of every row, every NES, every normalised null and every p-value is defined. */
  lemma {:induction false} MeansNormalize(es: seq<real>, esnull: seq<seq<real>>, meanPos: seq<Option<real>>, meanNeg: seq<Option<real>>)
    requires AllNormalizable(es, esnull) && |meanPos| == |es| && |meanNeg| == |es|
    requires forall i :: 0 <= i < |es| ==> meanPos[i] == MeanPos(esnull[i]) && meanNeg[i] == MeanNeg(esnull[i])
    ensures forall i :: 0 <= i < |es| ==>
      && NormalizedScore(es[i], meanPos[i], meanNeg[i]) == Some(Nes(es[i], esnull[i]))
      && PValue(es[i], esnull[i]).Some?
      && (forall k :: 0 <= k < |esnull[i]| ==> NormalizedScore(esnull[i][k], meanPos[i], meanNeg[i]).Some?)
  {
    forall i | 0 <= i < |es|
      ensures NormalizedScore(es[i], meanPos[i], meanNeg[i]) == Some(Nes(es[i], esnull[i]))
      ensures PValue(es[i], esnull[i]).Some?
      ensures forall k :: 0 <= k < |esnull[i]| ==> NormalizedScore(esnull[i][k], meanPos[i], meanNeg[i]).Some?
    {
      NormalizedKeepsSign(es[i], esnull[i]);
      if es[i] >= 0.0 {
        CountImplies(esnull[i], Gt, 0.0, Ge, 0.0);
      }
      forall k | 0 <= k < |esnull[i]|
        ensures NormalizedScore(esnull[i][k], meanPos[i], meanNeg[i]).Some?
      {
        NullNormalizable(esnull[i], k);
      }
    }
  }

  /** Pooling the rows counts at least what one row counts. */
  lemma {:induction false} CountFlattenRow(rows: seq<seq<real>>, i: nat, c: Cmp, x: real)
    requires i < |rows|
    ensures Count(rows[i], c, x) <= Count(Flatten(rows), c, x)
    decreases |rows|
  {
    var n := |rows| - 1;
    CountConcat(Flatten(rows[..n]), rows[n], c, x);
    if i < n {
      CountFlattenRow(rows[..n], i, c, x);
    }
  }

  /** Under finite NES every set's own row holds a null of its sign, so the pooled nulls do
      and no q-value is the sentinel: each lies in [0, 1]. */
  lemma {:induction false} AllFdrBounds(es: seq<real>, esnull: seq<seq<real>>, fdrs: seq<real>)
    requires AllNormalizable(es, esnull) && |fdrs| == |es|
    requires forall i :: 0 <= i < |es| ==>
      fdrs[i] == Fdr(AllNes(es, esnull)[i], Flatten(AllNullNes(es, esnull)), AllNes(es, esnull))
    ensures forall i :: 0 <= i < |es| ==> 0.0 <= fdrs[i] <= 1.0
  {
    var nes, nnulls := AllNes(es, esnull), AllNullNes(es, esnull);
    assert forall i :: 0 <= i < |es| ==> |nnulls[i]| == |esnull[i]| && nnulls[i] == NullNes(esnull[i]);
    FlattenSameSignCounts(nnulls, esnull);
    forall i | 0 <= i < |es|
      ensures 0.0 <= fdrs[i] <= 1.0
    {
      assert nes[i] == Nes(es[i], esnull[i]);
      FdrBounds(nes[i], Flatten(nnulls), nes);
      if es[i] >= 0.0 {
        CountImplies(esnull[i], Gt, 0.0, Ge, 0.0);
        CountFlattenRow(esnull, i, Ge, 0.0);
      } else {
        CountFlattenRow(esnull, i, Lt, 0.0);
      }
    }
  }

  /** One element of the result of `gsea_significance`. */
  datatype SetResult = SetResult(es: real, nes: real, pval: real, fdr: real)

  /** `gsea_significance(enrichment_scores, enrichment_nulls)` when every NES and every
      normalised null is finite. */
  method GseaSignificance(es: seq<real>, esnull: seq<seq<real>>) returns (results: seq<SetResult>)
    requires AllNormalizable(es, esnull)
    ensures |results| == |es|
    ensures forall i :: 0 <= i < |es| ==>
      && PValue(es[i], esnull[i]).Some?
      && results[i] == SetResult(es[i], AllNes(es, esnull)[i], PValue(es[i], esnull[i]).value,
                                 Fdr(AllNes(es, esnull)[i], Flatten(AllNullNes(es, esnull)), AllNes(es, esnull)))
    ensures forall i :: 0 <= i < |es| ==>
      && (results[i].nes >= 0.0 <==> es[i] >= 0.0)
      && 0.0 <= results[i].pval <= 1.0
      && 0.0 <= results[i].fdr <= 1.0
  {
    var meanPos, meanNeg := NullMeans(esnull);
    MeansNormalize(es, esnull, meanPos, meanNeg);
    var nes := seq(|es|, i requires 0 <= i < |es| => NormalizedScore(es[i], meanPos[i], meanNeg[i]).value);
    var nnulls := seq(|es|, i requires 0 <= i < |es| => Normalized(esnull[i], meanPos[i], meanNeg[i]));
    assert nes == AllNes(es, esnull);
    assert nnulls == AllNullNes(es, esnull);
    var pvals := seq(|es|, i requires 0 <= i < |es| => PValue(es[i], esnull[i]).value);
    var fdrs := Fdrs(nes, Flatten(nnulls));
    AllFdrBounds(es, esnull, fdrs);
    results := seq(|es|, i requires 0 <= i < |es| => SetResult(es[i], nes[i], pvals[i], fdrs[i]));
  }
}
