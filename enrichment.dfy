/** The running-sum enrichment statistic of `enrichment_score` and of the
    one-dimensional (tag permutation, prerank, ssGSEA) path of
    `enrichment_score_tensor`. */
module Enrichment {
  import opened Common
  import opened Names
  import opened Permutation

  type Gene = string

  /** The ranked gene list has no repeated gene, as `np.in1d` is told to take for granted. */
  predicate Distinct(genes: seq<Gene>)
  {
    forall i, j :: 0 <= i < j < |genes| ==> genes[i] != genes[j]
  }

  /** `np.in1d(gene_list, gene_set)`: true at the positions whose gene is in the set. */
  function Indicator(genes: seq<Gene>, geneSet: set<Gene>): (tag: seq<bool>)
    ensures |tag| == |genes|
  {
    seq(|genes|, i requires 0 <= i < |genes| => genes[i] in geneSet)
  }

  predicate StrictlyIncreasing(r: seq<nat>)
  {
    forall i, j :: 0 <= i < j < |r| ==> r[i] < r[j]
  }

  /** `np.flatnonzero(tag)`: the hit positions, in increasing order. */
  function HitIndices(tag: seq<bool>): (r: seq<nat>)
    ensures StrictlyIncreasing(r)
    ensures forall k: nat :: k in r <==> k < |tag| && tag[k]
    ensures |r| == HitCount(tag)
  {
    if |tag| == 0 then []
    else
      var n := |tag| - 1;
      var front := HitIndices(tag[..n]);
      assert forall k: nat :: k < n ==> tag[..n][k] == tag[k];
      assert forall i :: 0 <= i < |front| ==> front[i] < n by {
        forall i | 0 <= i < |front| ensures front[i] < n {
          assert front[i] in front;
        }
      }
      var last := if tag[n] then [n] else [];
      assert forall k: nat :: k in front + last <==> k in front || k in last;
      front + last
  }

  /** The weight of each position: `np.abs(correl_vector) ** p`, or 1 everywhere when p == 0. */
  function Weights(cor: seq<real>, p: nat): (w: seq<real>)
    ensures |w| == |cor|
    ensures forall i :: 0 <= i < |w| ==> w[i] >= 0.0
    ensures p == 0 ==> forall i :: 0 <= i < |w| ==> w[i] == 1.0
  {
    seq(|cor|, i requires 0 <= i < |cor| => if p == 0 then 1.0 else Pow(Abs(cor[i]), p))
  }

  lemma {:induction false} PowZero(x: real, n: nat)
    requires n > 0
    ensures Pow(x, n) == 0.0 <==> x == 0.0
    decreases n
  {
    if n > 1 {
      PowZero(x, n - 1);
    }
  }

  /** `np.sum(correl_vector * tag_indicator)`: the summed weight of the hits. */
  function HitWeight(tag: seq<bool>, w: seq<real>): (r: real)
    requires |w| == |tag|
    ensures NonNegative(w) ==> r >= 0.0
  {
    if |tag| == 0 then 0.0
    else HitWeight(tag[..|tag| - 1], w[..|tag| - 1]) + (if tag[|tag| - 1] then w[|tag| - 1] else 0.0)
  }

  /** `Nmiss = N - Nhint`. */
  function MissCount(tag: seq<bool>): (r: nat)
    ensures r == 0 <==> forall i :: 0 <= i < |tag| ==> tag[i]
  {
    |tag| - HitCount(tag)
  }

  predicate NonNegative(w: seq<real>)
  {
    forall i :: 0 <= i < |w| ==> w[i] >= 0.0
  }

  /** The floating-point curve is all NaN when Nmiss == 0 or the hit weights sum to zero. */
  predicate Degenerate(tag: seq<bool>, w: seq<real>)
    requires |w| == |tag|
  {
    MissCount(tag) == 0 || HitWeight(tag, w) == 0.0
  }

  /** `tag * w * norm_tag - no_tag * norm_no_tag`: what each position adds to the curve
      (the tensor path divides by the two sums instead, which is the same over the reals). */
  function Steps(tag: seq<bool>, w: seq<real>, normTag: real, normMiss: real): (d: seq<real>)
    requires |w| == |tag|
    ensures |d| == |tag|
  {
    seq(|tag|, i requires 0 <= i < |tag| => if tag[i] then w[i] * normTag else -normMiss)
  }

  /** RES, the running enrichment score; `None` when numpy's curve is NaN. An empty gene
      list has an empty curve, on which nothing is divided. */
  function RunningSum(tag: seq<bool>, w: seq<real>): (r: Option<seq<real>>)
    requires |w| == |tag|
    ensures r.Some? <==> |tag| == 0 || !Degenerate(tag, w)
    ensures r.Some? ==> |r.value| == |tag|
  {
    if |tag| == 0 then Some([])
    else if Degenerate(tag, w) then None
    else Some(CumSum(Steps(tag, w, 1.0 / HitWeight(tag, w), 1.0 / MissCount(tag) as real)))
  }

  lemma {:induction false} ProductNonNegative(a: real, b: real)
    requires a >= 0.0 && b >= 0.0
    ensures a * b >= 0.0
  {
  }

  lemma {:induction false} ScaledNonNegative(tag: seq<bool>, w: seq<real>, normTag: real, normMiss: real)
    requires |w| == |tag| && NonNegative(w) && normTag >= 0.0 && normMiss >= 0.0
    ensures ScaledHitWeight(tag, w, normTag) >= 0.0 && ScaledMisses(tag, normMiss) >= 0.0
    decreases |tag|
  {
    if |tag| > 0 {
      var n := |tag| - 1;
      ScaledNonNegative(tag[..n], w[..n], normTag, normMiss);
      ProductNonNegative(w[n], normTag);
    }
  }

  /** The hit part and the miss part of the curve only grow along the list: after a
      prefix each lies between 0 and its value after the whole list. */
  lemma {:induction false} ScaledPrefixWithin(tag: seq<bool>, w: seq<real>, normTag: real, normMiss: real, k: nat)
    requires |w| == |tag| && NonNegative(w) && normTag >= 0.0 && normMiss >= 0.0 && k <= |tag|
    ensures 0.0 <= ScaledHitWeight(tag[..k], w[..k], normTag) <= ScaledHitWeight(tag, w, normTag)
    ensures 0.0 <= ScaledMisses(tag[..k], normMiss) <= ScaledMisses(tag, normMiss)
    decreases |tag| - k
  {
    ScaledNonNegative(tag[..k], w[..k], normTag, normMiss);
    if k == |tag| {
      assert tag[..k] == tag && w[..k] == w;
    } else {
      ScaledPrefixWithin(tag, w, normTag, normMiss, k + 1);
      assert tag[..k + 1][..k] == tag[..k] && w[..k + 1][..k] == w[..k];
      ProductNonNegative(w[k], normTag);
    }
  }

  /** The hit part of the curve after the positions of tag: each hit's weight times norm_tag. */
  ghost function ScaledHitWeight(tag: seq<bool>, w: seq<real>, normTag: real): (r: real)
    requires |w| == |tag|
  {
    if |tag| == 0 then 0.0
    else ScaledHitWeight(tag[..|tag| - 1], w[..|tag| - 1], normTag)
         + (if tag[|tag| - 1] then w[|tag| - 1] * normTag else 0.0)
  }

  /** The miss part of the curve after the positions of tag: norm_no_tag per miss. */
  ghost function ScaledMisses(tag: seq<bool>, normMiss: real): (r: real)
  {
    if |tag| == 0 then 0.0
    else ScaledMisses(tag[..|tag| - 1], normMiss) + (if tag[|tag| - 1] then 0.0 else normMiss)
  }

  lemma {:induction false} ScaledHitWeightIs(tag: seq<bool>, w: seq<real>, normTag: real)
    requires |w| == |tag|
    ensures ScaledHitWeight(tag, w, normTag) == HitWeight(tag, w) * normTag
    decreases |tag|
  {
    if |tag| > 0 {
      var n := |tag| - 1;
      ScaledHitWeightIs(tag[..n], w[..n], normTag);
      var a := HitWeight(tag[..n], w[..n]);
      if tag[n] {
        assert HitWeight(tag, w) == a + w[n];
        assert (a + w[n]) * normTag == a * normTag + w[n] * normTag;
      }
    }
  }

  lemma {:induction false} ScaledMissesIs(tag: seq<bool>, normMiss: real)
    ensures ScaledMisses(tag, normMiss) == MissCount(tag) as real * normMiss
    decreases |tag|
  {
    if |tag| > 0 {
      var n := |tag| - 1;
      ScaledMissesIs(tag[..n], normMiss);
      var m := MissCount(tag[..n]) as real;
      assert (m + 1.0) * normMiss == m * normMiss + normMiss;
    }
  }

  /** After k positions the curve holds the hit weight seen so far times norm_tag,
      minus norm_no_tag for each miss seen so far. */
  lemma {:induction false} StepsPrefix(tag: seq<bool>, w: seq<real>, normTag: real, normMiss: real, k: nat)
    requires |w| == |tag| && k <= |tag|
    ensures Sum(Steps(tag, w, normTag, normMiss)[..k])
         == ScaledHitWeight(tag[..k], w[..k], normTag) - ScaledMisses(tag[..k], normMiss)
    decreases k
  {
    var d := Steps(tag, w, normTag, normMiss);
    if k > 0 {
      StepsPrefix(tag, w, normTag, normMiss, k - 1);
      assert d[..k][..k - 1] == d[..k - 1];
      assert tag[..k][..k - 1] == tag[..k - 1] && w[..k][..k - 1] == w[..k - 1];
    } else {
      assert d[..0] == [] && tag[..0] == [] && w[..0] == [];
    }
  }

  /** RES at position k - 1: the hit weight of the first k positions times norm_tag,
      minus their misses times norm_no_tag. */
  lemma {:induction false} CurveAt(tag: seq<bool>, w: seq<real>, k: nat)
    requires |w| == |tag| && !Degenerate(tag, w) && 0 < k <= |tag|
    ensures RunningSum(tag, w).value[k - 1]
         == ScaledHitWeight(tag[..k], w[..k], 1.0 / HitWeight(tag, w))
            - ScaledMisses(tag[..k], 1.0 / MissCount(tag) as real)
  {
    StepsPrefix(tag, w, 1.0 / HitWeight(tag, w), 1.0 / MissCount(tag) as real, k);
  }

  /** Over the whole list the hit part and the miss part of the curve are both 1. */
  lemma {:induction false} ScaledTotals(tag: seq<bool>, w: seq<real>)
    requires |w| == |tag| && NonNegative(w) && !Degenerate(tag, w)
    ensures HitWeight(tag, w) > 0.0 && 1.0 / HitWeight(tag, w) > 0.0 && 1.0 / MissCount(tag) as real > 0.0
    ensures ScaledHitWeight(tag, w, 1.0 / HitWeight(tag, w)) == 1.0
    ensures ScaledMisses(tag, 1.0 / MissCount(tag) as real) == 1.0
  {
    PositiveReciprocal(HitWeight(tag, w));
    PositiveReciprocal(MissCount(tag) as real);
    HitTotal(tag, w);
    MissTotal(tag);
  }

  lemma {:induction false} HitTotal(tag: seq<bool>, w: seq<real>)
    requires |w| == |tag| && HitWeight(tag, w) > 0.0
    ensures ScaledHitWeight(tag, w, 1.0 / HitWeight(tag, w)) == 1.0
  {
    ScaledHitWeightIs(tag, w, 1.0 / HitWeight(tag, w));
    UnitProduct(ScaledHitWeight(tag, w, 1.0 / HitWeight(tag, w)), HitWeight(tag, w), 1.0 / HitWeight(tag, w));
  }

  lemma {:induction false} MissTotal(tag: seq<bool>)
    requires MissCount(tag) > 0
    ensures ScaledMisses(tag, 1.0 / MissCount(tag) as real) == 1.0
  {
    ScaledMissesIs(tag, 1.0 / MissCount(tag) as real);
    UnitProduct(ScaledMisses(tag, 1.0 / MissCount(tag) as real), MissCount(tag) as real, 1.0 / MissCount(tag) as real);
  }

  lemma {:induction false} UnitProduct(x: real, b: real, n: real)
    requires b > 0.0 && n == 1.0 / b && x == b * n
    ensures x == 1.0
  {
  }

  lemma {:induction false} PositiveReciprocal(b: real)
    requires b > 0.0
    ensures 1.0 / b > 0.0
  {
  }

  lemma {:induction false} CurveValueBounds(tag: seq<bool>, w: seq<real>, i: nat)
    requires |w| == |tag| && NonNegative(w) && !Degenerate(tag, w) && i < |tag|
    ensures -1.0 <= RunningSum(tag, w).value[i] <= 1.0
  {
    ScaledTotals(tag, w);
    CurveAt(tag, w, i + 1);
    ScaledPrefixWithin(tag, w, 1.0 / HitWeight(tag, w), 1.0 / MissCount(tag) as real, i + 1);
  }

  /** Every RES value lies in [-1, 1] and the last one is 0. */
  lemma {:induction false} RunningSumBounds(tag: seq<bool>, w: seq<real>)
    requires |w| == |tag| && NonNegative(w) && !Degenerate(tag, w)
    ensures var res := RunningSum(tag, w).value;
      (forall i :: 0 <= i < |res| ==> -1.0 <= res[i] <= 1.0) && res[|res| - 1] == 0.0
  {
    forall i | 0 <= i < |tag|
      ensures -1.0 <= RunningSum(tag, w).value[i] <= 1.0
    {
      CurveValueBounds(tag, w, i);
    }
    CurveAt(tag, w, |tag|);
    assert tag[..|tag|] == tag && w[..|tag|] == w;
    ScaledTotals(tag, w);
  }

  /** With unit weights (p == 0) each hit adds 1/Nhit, each miss takes away 1/Nmiss. */
  lemma {:induction false} UnitHitWeight(tag: seq<bool>, w: seq<real>)
    requires |w| == |tag| && forall i :: 0 <= i < |w| ==> w[i] == 1.0
    ensures HitWeight(tag, w) == HitCount(tag) as real
    decreases |tag|
  {
    if |tag| > 0 {
      UnitHitWeight(tag[..|tag| - 1], w[..|tag| - 1]);
    }
  }

  lemma {:induction false} ClassicSteps(tag: seq<bool>, cor: seq<real>)
    requires |cor| == |tag| && !Degenerate(tag, Weights(cor, 0))
    ensures var w := Weights(cor, 0);
      var d := Steps(tag, w, 1.0 / HitWeight(tag, w), 1.0 / MissCount(tag) as real);
      HitCount(tag) > 0 &&
      forall i :: 0 <= i < |tag| ==>
        d[i] == if tag[i] then 1.0 / HitCount(tag) as real else -1.0 / MissCount(tag) as real
  {
    var w := Weights(cor, 0);
    UnitHitWeight(tag, w);
    var d := Steps(tag, w, 1.0 / HitWeight(tag, w), 1.0 / MissCount(tag) as real);
    forall i | 0 <= i < |tag|
      ensures d[i] == if tag[i] then 1.0 / HitCount(tag) as real else -1.0 / MissCount(tag) as real
    {
      assert w[i] == 1.0;
    }
  }

  /** Two-class (GSEA) aggregation, `np.where(abs(max) > abs(min), max, min)`. */
  function Extremum(res: seq<real>): (es: real)
    requires |res| > 0
    ensures es in res
    ensures forall i :: 0 <= i < |res| ==> Abs(res[i]) <= Abs(es)
    ensures forall i :: 0 <= i < |res| && Abs(res[i]) == Abs(es) ==> es <= res[i]
  {
    var mx, mn := Max(res), Min(res);
    if Abs(mx) > Abs(mn) then mx else mn
  }

  /** ssGSEA (`single`) sums the curve; GSEA takes its extremum. */
  function Score(res: seq<real>, single: bool): (r: real)
    requires single || |res| > 0
    ensures !single ==> r in res && forall i :: 0 <= i < |res| ==> Abs(res[i]) <= Abs(r)
  {
    if single then Sum(res) else Extremum(res)
  }

  /** `REStensor / len(gene_mat)`. */
  function Scale(res: seq<real>, n: real): (r: seq<real>)
    requires n != 0.0
    ensures |r| == |res|
    ensures forall i :: 0 <= i < |res| ==> r[i] * n == res[i]
  {
    seq(|res|, i requires 0 <= i < |res| => res[i] / n)
  }

  lemma {:induction false} SumScale(res: seq<real>, n: real)
    requires n > 0.0
    ensures Sum(Scale(res, n)) == Sum(res) / n
    decreases |res|
  {
    if |res| > 0 {
      var k := |res| - 1;
      assert Scale(res, n)[..k] == Scale(res[..k], n);
      SumScale(res[..k], n);
      assert (Sum(res[..k]) + res[k]) / n == Sum(res[..k]) / n + res[k] / n;
    }
  }

  lemma {:induction false} DivAbs(a: real, n: real)
    requires n > 0.0
    ensures Abs(a / n) == Abs(a) / n
  {
    assert 0.0 / n == 0.0;
    if a < 0.0 {
      DivMonotone(a, 0.0, n);
      assert (-a) / n == -(a / n);
    } else {
      DivMonotone(0.0, a, n);
    }
  }

  lemma {:induction false} DivPositive(a: real, b: real, n: real)
    requires n > 0.0
    ensures a <= b <==> a / n <= b / n
    ensures Abs(a) <= Abs(b) <==> Abs(a / n) <= Abs(b / n)
    ensures Abs(a) == Abs(b) <==> Abs(a / n) == Abs(b / n)
  {
    DivMonotone(a, b, n);
    DivAbs(a, n);
    DivAbs(b, n);
    DivMonotone(Abs(a), Abs(b), n);
  }

  /** The three facts Extremum promises pin its value down. */
  lemma {:induction false} ExtremumUnique(res: seq<real>, e: real)
    requires |res| > 0 && e in res
    requires forall i :: 0 <= i < |res| ==> Abs(res[i]) <= Abs(e)
    requires forall i :: 0 <= i < |res| && Abs(res[i]) == Abs(e) ==> e <= res[i]
    ensures e == Extremum(res)
  {
    var x := Extremum(res);
    var i :| 0 <= i < |res| && res[i] == e;
    var j :| 0 <= j < |res| && res[j] == x;
  }

  /** Scaling the curve by 1/N scales the score by 1/N, in both aggregation modes. */
  lemma {:induction false} ScaledScore(res: seq<real>, n: real, single: bool)
    requires n > 0.0 && (single || |res| > 0)
    ensures Score(Scale(res, n), single) == Score(res, single) / n
  {
    if single {
      SumScale(res, n);
    } else {
      var e, s := Extremum(res), Scale(res, n);
      var i :| 0 <= i < |res| && res[i] == e;
      assert s[i] == e / n;
      forall j | 0 <= j < |s|
        ensures Abs(s[j]) <= Abs(e / n)
        ensures Abs(s[j]) == Abs(e / n) ==> e / n <= s[j]
      {
        DivPositive(res[j], e, n);
        DivPositive(e, res[j], n);
      }
      ExtremumUnique(s, e / n);
    }
  }

  /** The curve of one replicate after optional scaling by the gene count. */
  function ReplicateCurve(tag: seq<bool>, w: seq<real>, scale: bool): (r: Option<seq<real>>)
    requires |w| == |tag|
    ensures r.Some? <==> |tag| == 0 || !Degenerate(tag, w)
    ensures r.Some? ==> |r.value| == |tag|
  {
    match RunningSum(tag, w)
    case None => None
    case Some(c) => Some(if scale && |tag| > 0 then Scale(c, |tag| as real) else c)
  }

  /** The score of one replicate; `None` when numpy's score is NaN. The two-class score
      needs a gene: `np.max` over an empty axis raises. */
  function ReplicateScore(tag: seq<bool>, w: seq<real>, scale: bool, single: bool): (r: Option<real>)
    requires |w| == |tag| && (single || |tag| > 0)
    ensures r.Some? <==> |tag| == 0 || !Degenerate(tag, w)
    ensures |tag| == 0 ==> r == Some(0.0)
  {
    match ReplicateCurve(tag, w, scale)
    case None => None
    case Some(c) => Some(Score(c, single))
  }

  /** An unscaled two-class score is the RES value of largest magnitude and lies in [-1, 1]. */
  lemma {:induction false} ScoreBounds(tag: seq<bool>, w: seq<real>)
    requires |w| == |tag| && NonNegative(w) && !Degenerate(tag, w)
    ensures var es := ReplicateScore(tag, w, false, false).value;
      var res := RunningSum(tag, w).value;
      -1.0 <= es <= 1.0 && es in res && forall i :: 0 <= i < |res| ==> Abs(res[i]) <= Abs(es)
  {
    RunningSumBounds(tag, w);
  }

  /** A sum of values in [-1, 1] lies within the number of values. */
  lemma {:induction false} SumWithin(s: seq<real>)
    requires forall i :: 0 <= i < |s| ==> -1.0 <= s[i] <= 1.0
    ensures -(|s| as real) <= Sum(s) <= |s| as real
    decreases |s|
  {
    if |s| > 0 {
      var k := |s| - 1;
      assert forall i :: 0 <= i < k ==> s[..k][i] == s[i];
      SumWithin(s[..k]);
    }
  }

  lemma {:induction false} DivWithin(a: real, n: real)
    requires n >= 1.0 && -n <= a <= n
    ensures -1.0 <= a / n <= 1.0
  {
    assert a / n * n == a;
  }

  /** With `scale`, the default of `enrichment_score_tensor`, every defined score of a copy,
      single-sample or two-class, lies in [-1, 1]: N curve values in [-1, 1], divided by N. */
  lemma {:induction false} ScaledReplicateBounds(tag: seq<bool>, w: seq<real>, single: bool)
    requires |w| == |tag| && NonNegative(w) && !Degenerate(tag, w)
    ensures ReplicateScore(tag, w, true, single).Some?
    ensures -1.0 <= ReplicateScore(tag, w, true, single).value <= 1.0
  {
    RunningSumBounds(tag, w);
    var res := RunningSum(tag, w).value;
    var n := |tag| as real;
    ScaledScore(res, n, single);
    if single {
      SumWithin(res);
    } else {
      ScoreBounds(tag, w);
    }
    DivWithin(Score(res, single), n);
  }

  /** Without `scale`, as `gsea_compute_ss` calls the tensor path, a single-sample score can
      leave [-1, 1]: two hits and then a miss give the curve [0.5, 1.0, 0.0], whose sum is 1.5. */
  lemma {:induction false} UnscaledSingleExceedsUnit()
    ensures ReplicateScore([true, true, false], [1.0, 1.0, 1.0], false, true) == Some(1.5)
  {
    var tag, w := [true, true, false], [1.0, 1.0, 1.0];
    assert tag[..2] == [true, true] && tag[..2][..1] == [true] && tag[..2][..1][..0] == [];
    assert w[..2] == [1.0, 1.0] && w[..2][..1] == [1.0] && w[..2][..1][..0] == [];
    assert HitWeight(tag[..2][..1], w[..2][..1]) == 1.0;
    assert HitWeight(tag[..2], w[..2]) == 2.0;
    assert HitWeight(tag, w) == 2.0;
    assert HitCount(tag[..2]) == 2;
    assert HitCount(tag) == 2;
    assert MissCount(tag) == 1;
    var d := Steps(tag, w, 1.0 / HitWeight(tag, w), 1.0 / MissCount(tag) as real);
    assert d == [0.5, 0.5, -1.0];
    assert d[..1] == [0.5] && d[..2] == [0.5, 0.5] && d[..3] == d && d[..1][..0] == [] && d[..2][..1] == [0.5];
    assert Sum(d[..1]) == 0.5;
    assert Sum(d[..2]) == 1.0;
    assert Sum(d[..3]) == 0.0;
    var c := CumSum(d);
    assert c == [0.5, 1.0, 0.0];
    assert c[..1] == [0.5] && c[..2] == [0.5, 1.0] && c[..1][..0] == [] && c[..2][..1] == [0.5];
    assert Sum(c) == 1.5;
  }

  /** The degenerate cases in terms of the gene list: every gene is in the set,
      or no gene of the set carries a non-zero weight. */
  lemma {:induction false} DegenerateIff(tag: seq<bool>, w: seq<real>)
    requires |w| == |tag| && NonNegative(w)
    ensures MissCount(tag) == 0 <==> forall i :: 0 <= i < |tag| ==> tag[i]
    ensures HitWeight(tag, w) == 0.0 <==> forall i :: 0 <= i < |tag| && tag[i] ==> w[i] == 0.0
    decreases |tag|
  {
    if |tag| > 0 {
      var n := |tag| - 1;
      DegenerateIff(tag[..n], w[..n]);
      assert forall i :: 0 <= i < n ==> tag[..n][i] == tag[i] && w[..n][i] == w[i];
    }
  }

  /** The curve is defined exactly when some gene lies outside the set and some gene of
      the set carries a non-zero weight. */
  lemma {:induction false} DefinedIff(genes: seq<Gene>, geneSet: set<Gene>, p: nat, cor: seq<real>)
    requires |cor| == |genes|
    ensures !Degenerate(Indicator(genes, geneSet), Weights(cor, p)) <==>
      (exists i :: 0 <= i < |genes| && genes[i] !in geneSet) &&
      (exists i :: 0 <= i < |genes| && genes[i] in geneSet && (p == 0 || cor[i] != 0.0))
  {
    var tag := Indicator(genes, geneSet);
    var w := Weights(cor, p);
    DegenerateIff(tag, w);
    forall i | 0 <= i < |genes|
      ensures w[i] != 0.0 <==> (p == 0 || cor[i] != 0.0)
    {
      if p > 0 {
        PowZero(Abs(cor[i]), p);
      }
    }
    assert forall i :: 0 <= i < |genes| ==> (tag[i] <==> genes[i] in geneSet);
  }

  /** The hit indices of the indicator are the positions of the set's genes. */
  lemma {:induction false} IndicatorHits(genes: seq<Gene>, geneSet: set<Gene>)
    ensures forall k: nat :: k in HitIndices(Indicator(genes, geneSet)) <==> k < |genes| && genes[k] in geneSet
  {
    var tag := Indicator(genes, geneSet);
    assert forall k: nat :: k < |genes| ==> (tag[k] <==> genes[k] in geneSet);
  }

  datatype Enrichment = Enrichment(es: Option<real>, hitIndices: seq<nat>, res: Option<seq<real>>)

  /** `enrichment_score` without `esnull`: the observed ES, hit indices and RES. An empty
      gene list raises instead (see `EnrichmentScore`). */
  function ObservedEnrichment(genes: seq<Gene>, geneSet: set<Gene>, p: nat, cor: seq<real>): (r: Enrichment)
    requires |cor| == |genes| && Distinct(genes) && |genes| > 0
    ensures StrictlyIncreasing(r.hitIndices)
    ensures forall k: nat :: k in r.hitIndices <==> k < |genes| && genes[k] in geneSet
    ensures r.es.Some? <==> r.res.Some?
    ensures r.es.Some? <==>
      (exists i :: 0 <= i < |genes| && genes[i] !in geneSet) &&
      (exists i :: 0 <= i < |genes| && genes[i] in geneSet && (p == 0 || cor[i] != 0.0))
    ensures r.res.Some? ==> var res := r.res.value;
      |res| == |genes| && res[|res| - 1] == 0.0 &&
      forall i :: 0 <= i < |res| ==> -1.0 <= res[i] <= 1.0
    ensures r.es.Some? ==> var es := r.es.value;
      -1.0 <= es <= 1.0 && es in r.res.value &&
      (forall i :: 0 <= i < |genes| ==> Abs(r.res.value[i]) <= Abs(es)) &&
      forall i :: 0 <= i < |genes| && Abs(r.res.value[i]) == Abs(es) ==> es <= r.res.value[i]
  {
    var tag := Indicator(genes, geneSet);
    var w := Weights(cor, p);
    DefinedIff(genes, geneSet, p, cor);
    IndicatorHits(genes, geneSet);
    var res := RunningSum(tag, w);
    if res.Some? then
      ScoreBounds(tag, w);
      RunningSumBounds(tag, w);
      Enrichment(Some(Extremum(res.value)), HitIndices(tag), res)
    else
      Enrichment(None, HitIndices(tag), None)
  }

  datatype Output = Observed(result: Enrichment) | Nulls(es: seq<Option<real>>)

  /** `enrichment_score(..., esnull, rs)`: with esnull == 0 the observed result; otherwise
      the scores of esnull copies of the indicator, copy k shuffled in place with draws[k].
      On an empty gene list `np.max` over the empty axis raises, with or without nulls. */
  method EnrichmentScore(genes: seq<Gene>, geneSet: set<Gene>, p: nat, cor: seq<real>,
                         esnull: nat, draws: seq<seq<nat>>) returns (out: Result<Output>)
    requires |cor| == |genes| && Distinct(genes)
    requires |draws| == esnull && forall k :: 0 <= k < esnull ==> ValidDraws(|genes|, draws[k])
    ensures out.Err? <==> |genes| == 0
    ensures out.Err? ==> out.error == EmptyReduction
    ensures out.Ok? && esnull == 0 ==> out.value == Observed(ObservedEnrichment(genes, geneSet, p, cor))
    ensures out.Ok? && esnull > 0 ==> out.value.Nulls? && |out.value.es| == esnull
    ensures out.Ok? && esnull > 0 ==> forall k :: 0 <= k < esnull ==>
      out.value.es[k] == ReplicateScore(Shuffle(Indicator(genes, geneSet), draws[k]), Weights(cor, p), false, false)
  {
    if |genes| == 0 {
      return Err(EmptyReduction);
    }
    if esnull == 0 {
      return Ok(Observed(ObservedEnrichment(genes, geneSet, p, cor)));
    }
    var tag := Indicator(genes, geneSet);
    var w := Weights(cor, p);
    var rows := Tile(tag, esnull);
    ShuffleRows(rows, esnull, draws);
    var scores := seq(esnull, k requires 0 <= k < esnull reads rows => ReplicateScore(Row(rows, k), w, false, false));
    out := Ok(Nulls(scores));
  }

  /** Every null replicate has the observed hit count, so the same Nmiss, and its
      unscaled two-class score, when defined, lies in [-1, 1]. */
  lemma {:induction false} NullReplicate(tag: seq<bool>, w: seq<real>, draws: seq<nat>)
    requires |w| == |tag| && NonNegative(w) && ValidDraws(|tag|, draws)
    ensures HitCount(Shuffle(tag, draws)) == HitCount(tag)
    ensures MissCount(Shuffle(tag, draws)) == MissCount(tag)
    ensures |tag| > 0 ==> var es := ReplicateScore(Shuffle(tag, draws), w, false, false);
      es.Some? ==> -1.0 <= es.value <= 1.0
  {
    ShuffleKeepsHitCount(tag, draws);
    var s := Shuffle(tag, draws);
    if |tag| > 0 && !Degenerate(s, w) {
      ScoreBounds(s, w);
    }
  }

  /** The weights of `enrichment_score_tensor` as written: weighted_score_type == 0 reads
      N before the function assigns it and raises. */
  function TensorWeightsAsWritten(cor: seq<real>, p: int): (r: Result<seq<real>>)
    ensures r.Ok? <==> p > 0
    ensures p == 0 ==> r == Err(UnboundLength)
    ensures p < 0 ==> r == Err(NegativeWeight)
    ensures r.Ok? ==> r.value == Weights(cor, p)
  {
    if p == 0 then Err(UnboundLength)
    else if p > 0 then Ok(Weights(cor, p))
    else Err(NegativeWeight)
  }

  /** A classic (weighted_score_type == 0) call of the tensor path as written fails for any
      input, where `enrichment_score` scores the same input with unit weights. */
  lemma {:induction false} ClassicTensorRaisesAsWritten(cor: seq<real>)
    ensures TensorWeightsAsWritten(cor, 0) == Err(UnboundLength)
    ensures TensorWeights(cor, 0) == Ok(Weights(cor, 0))
  {
  }

  /** The weights of `enrichment_score_tensor` with weighted_score_type == 0 meaning unit
      weights on the hits, as in `enrichment_score`. */
  function TensorWeights(cor: seq<real>, p: int): (r: Result<seq<real>>)
    ensures r.Ok? <==> p >= 0
    ensures r.Err? ==> r.error == NegativeWeight
    ensures r.Ok? ==> |r.value| == |cor| && NonNegative(r.value)
    ensures p == 0 ==> r.Ok? && forall i :: 0 <= i < |cor| ==> r.value[i] == 1.0
  {
    if p < 0 then Err(NegativeWeight) else Ok(Weights(cor, p as nat))
  }

  /** `rank_alpha = (tag * |cor|) ** p` of the tensor path, for one copy of the indicator. */
  function RankAlpha(tag: seq<bool>, cor: seq<real>, p: nat): (a: seq<real>)
    requires |cor| == |tag|
    ensures |a| == |tag|
    ensures p == 0 ==> forall i :: 0 <= i < |a| ==> a[i] == 1.0
  {
    seq(|tag|, i requires 0 <= i < |tag| => Pow(if tag[i] then Abs(cor[i]) else 0.0, p))
  }

  /** `no_tag_tensor = 1 - tag`, for one copy of the indicator. */
  function NoTag(tag: seq<bool>): (a: seq<real>)
    ensures |a| == |tag|
  {
    seq(|tag|, i requires 0 <= i < |tag| => if tag[i] then 0.0 else 1.0)
  }

  /** The curve of one copy as the tensor path computes it: `rank_alpha` divided by its sum
      `P_GW_denominator`, minus `no_tag` divided by its sum `P_NG_denominator`, accumulated;
      NaN (`None`) when either sum is zero. */
  function TensorCurve(tag: seq<bool>, cor: seq<real>, p: nat): (r: Option<seq<real>>)
    requires |cor| == |tag|
    ensures r.Some? ==> |r.value| == |tag|
  {
    var alpha, noTag := RankAlpha(tag, cor, p), NoTag(tag);
    var gw, ng := Sum(alpha), Sum(noTag);
    if |tag| == 0 then Some([])
    else if gw == 0.0 || ng == 0.0 then None
    else Some(CumSum(seq(|tag|, i requires 0 <= i < |tag| => alpha[i] / gw - noTag[i] / ng)))
  }

  /** For p > 0, `P_GW_denominator` is the summed weight of the hits: a miss contributes `0 ** p`. */
  lemma {:induction false} RankAlphaSum(tag: seq<bool>, cor: seq<real>, p: nat)
    requires |cor| == |tag| && p > 0
    ensures Sum(RankAlpha(tag, cor, p)) == HitWeight(tag, Weights(cor, p))
    decreases |tag|
  {
    if |tag| > 0 {
      var n := |tag| - 1;
      assert RankAlpha(tag, cor, p)[..n] == RankAlpha(tag[..n], cor[..n], p);
      assert Weights(cor, p)[..n] == Weights(cor[..n], p);
      RankAlphaSum(tag[..n], cor[..n], p);
      PowZero(0.0, p);
    }
  }

  /** `P_NG_denominator` is the miss count. */
  lemma {:induction false} NoTagSum(tag: seq<bool>)
    ensures Sum(NoTag(tag)) == MissCount(tag) as real
    decreases |tag|
  {
    if |tag| > 0 {
      var n := |tag| - 1;
      assert NoTag(tag)[..n] == NoTag(tag[..n]);
      NoTagSum(tag[..n]);
    }
  }

  /** For every weighted_score_type p > 0 the tensor's division by the two sums yields the
      curve of `enrichment_score`, including where both are NaN. */
  lemma {:induction false} TensorCurveAgrees(tag: seq<bool>, cor: seq<real>, p: nat)
    requires |cor| == |tag| && p > 0
    ensures TensorCurve(tag, cor, p) == RunningSum(tag, Weights(cor, p))
  {
    var w := Weights(cor, p);
    RankAlphaSum(tag, cor, p);
    NoTagSum(tag);
    if |tag| > 0 && !Degenerate(tag, w) {
      var alpha, noTag := RankAlpha(tag, cor, p), NoTag(tag);
      var gw, ng := Sum(alpha), Sum(noTag);
      var d := seq(|tag|, i requires 0 <= i < |tag| => alpha[i] / gw - noTag[i] / ng);
      var e := Steps(tag, w, 1.0 / HitWeight(tag, w), 1.0 / MissCount(tag) as real);
      forall i | 0 <= i < |tag|
        ensures d[i] == e[i]
      {
        PowZero(0.0, p);
      }
      assert d == e;
    }
  }

  /** Even with N bound, `(tag * 1) ** 0` weighs every miss as 1: for two genes, the first in
      the set, the tensor's classic curve is [0.5, 0.0] where `enrichment_score`'s is [1.0, 0.0]. */
  lemma {:induction false} ClassicTensorCurveAsWritten()
    ensures TensorCurve([true, false], [1.0, 1.0], 0) == Some([0.5, 0.0])
    ensures RunningSum([true, false], Weights([1.0, 1.0], 0)) == Some([1.0, 0.0])
  {
    var tag, cor := [true, false], [1.0, 1.0];
    var alpha, noTag := RankAlpha(tag, cor, 0), NoTag(tag);
    assert alpha == [1.0, 1.0];
    assert noTag == [0.0, 1.0];
    assert alpha[..1] == [1.0] && noTag[..1] == [0.0];
    assert Sum(alpha) == 2.0;
    assert Sum(noTag) == 1.0;
    var d := seq(|tag|, i requires 0 <= i < |tag| => alpha[i] / Sum(alpha) - noTag[i] / Sum(noTag));
    assert d == [0.5, -0.5];
    assert d[..1] == [0.5] && d[..2] == d && d[..1][..0] == [];
    assert Sum(d[..1]) == 0.5;
    assert Sum(d[..2]) == 0.0;
    assert CumSum(d) == [0.5, 0.0];
    var w := Weights(cor, 0);
    assert w == [1.0, 1.0];
    assert tag[..1] == [true] && w[..1] == [1.0];
    assert HitWeight(tag, w) == 1.0;
    assert tag[..1][..0] == [];
    assert HitCount(tag) == 1;
    assert MissCount(tag) == 1;
    var e := Steps(tag, w, 1.0 / HitWeight(tag, w), 1.0 / MissCount(tag) as real);
    assert e == [1.0, -1.0];
    assert e[..1] == [1.0] && e[..2] == e;
    assert CumSum(e) == [1.0, 0.0];
  }

  /** Row m of each output of the tensor path: `es[m]`, `esnull[m]`, `hit_ind[m]`, `RES[m]`. */
  datatype SetScores = SetScores(
    es: Option<real>,                  // observed score
    esnull: seq<Option<real>>,         // nperm null scores
    hitIndices: seq<nat>,              // hit positions
    res: Option<seq<real>>)            // observed curve

  /** The outputs of the tensor path, one row per gene set in `keys` order. */
  datatype Tensor = Tensor(keys: seq<string>, sets: seq<SetScores>)

  /** What the tensor holds for one gene set with indicator tag: its hit positions, its
      observed score and curve (from the unshuffled copy) and its nperm null scores. */
  predicate SetMatches(r: SetScores, tag: seq<bool>, w: seq<real>, nperm: nat, scale: bool, single: bool,
                       draws: seq<seq<nat>>)
    requires |w| == |tag| && |draws| == nperm && (single || |tag| > 0)
    requires forall k :: 0 <= k < nperm ==> ValidDraws(|tag|, draws[k])
  {
    && r.hitIndices == HitIndices(tag)
    && r.es == ReplicateScore(tag, w, scale, single)
    && r.res == ReplicateCurve(tag, w, scale)
    && |r.esnull| == nperm
    && forall k :: 0 <= k < nperm ==> r.esnull[k] == ReplicateScore(Shuffle(tag, draws[k]), w, scale, single)
  }

  /** One gene set of the tensor: nperm + 1 copies of the indicator, copies 0 .. nperm - 1
      shuffled in place with draws[k], the last copy kept as the observed one. */
  method ScoreGeneSet(tag: seq<bool>, w: seq<real>, nperm: nat, scale: bool, single: bool, draws: seq<seq<nat>>)
      returns (r: SetScores)
    requires |w| == |tag| && |draws| == nperm && (single || |tag| > 0)
    requires forall k :: 0 <= k < nperm ==> ValidDraws(|tag|, draws[k])
    ensures SetMatches(r, tag, w, nperm, scale, single, draws)
  {
    var tensor := Tile(tag, nperm + 1);
    ShuffleRows(tensor, nperm, draws);
    var scores := seq(nperm + 1, k requires 0 <= k <= nperm reads tensor =>
                      ReplicateScore(Row(tensor, k), w, scale, single));
    r := SetScores(scores[nperm], scores[..nperm], HitIndices(tag), ReplicateCurve(Row(tensor, nperm), w, scale));
  }

  /** `enrichment_score_tensor` on a one-dimensional gene list, gene sets in sorted name order.
      It exits on a negative weighted_score_type; `np.vstack` raises on no gene sets,
      `np.apply_along_axis` on a zero-length permutation axis, and the two-class `max` on an
      empty gene list. As written it also fails for weighted_score_type == 0
      (`TensorWeightsAsWritten`); this method takes the corrected `TensorWeights`. */
  method EnrichmentScoreTensor(genes: seq<Gene>, cor: seq<real>, geneSets: map<string, set<Gene>>,
                               p: int, nperm: nat, scale: bool, single: bool,
                               draws: seq<seq<seq<nat>>>) returns (r: Result<Tensor>)
    requires |cor| == |genes| && Distinct(genes)
    requires |draws| == |geneSets.Keys|
    requires forall m :: 0 <= m < |draws| ==> |draws[m]| == nperm
    requires forall m, k :: 0 <= m < |draws| && 0 <= k < nperm ==> ValidDraws(|genes|, draws[m][k])
    ensures r.Err? <==> p < 0 || |geneSets.Keys| == 0 || nperm == 0 || (|genes| == 0 && !single)
    ensures p < 0 ==> r == Err(NegativeWeight)
    ensures p >= 0 && |geneSets.Keys| == 0 ==> r == Err(NoGeneSets)
    ensures p >= 0 && |geneSets.Keys| > 0 && nperm == 0 ==> r == Err(NoPermutations)
    ensures p >= 0 && |geneSets.Keys| > 0 && nperm > 0 && |genes| == 0 && !single ==> r == Err(EmptyReduction)
    ensures r.Ok? ==> r.value.keys == SortedNames(geneSets.Keys) && |r.value.sets| == |r.value.keys|
    ensures r.Ok? ==> forall m :: 0 <= m < |r.value.keys| ==>
      SetMatches(r.value.sets[m], Indicator(genes, geneSets[r.value.keys[m]]), Weights(cor, p as nat),
                 nperm, scale, single, draws[m])
  {
    var keys := SortedNames(geneSets.Keys);
    var weights := TensorWeights(cor, p);
    if weights.Err? {
      return Err(weights.error);
    }
    if |keys| == 0 {
      return Err(NoGeneSets);
    }
    if nperm == 0 {
      return Err(NoPermutations);
    }
    if |genes| == 0 && !single {
      return Err(EmptyReduction);
    }
    var sets := ScoreGeneSets(genes, weights.value, geneSets, keys, nperm, scale, single, draws);
    r := Ok(Tensor(keys, sets));
  }

  /** The rows of the tensor, one gene set after another in the order of keys. */
  method ScoreGeneSets(genes: seq<Gene>, w: seq<real>, geneSets: map<string, set<Gene>>, keys: seq<string>,
                       nperm: nat, scale: bool, single: bool, draws: seq<seq<seq<nat>>>)
      returns (sets: seq<SetScores>)
    requires |w| == |genes| && (single || |genes| > 0)
    requires |draws| == |keys| && forall m :: 0 <= m < |keys| ==> keys[m] in geneSets
    requires forall m :: 0 <= m < |draws| ==> |draws[m]| == nperm
    requires forall m, k :: 0 <= m < |draws| && 0 <= k < nperm ==> ValidDraws(|genes|, draws[m][k])
    ensures |sets| == |keys|
    ensures forall m :: 0 <= m < |keys| ==>
      SetMatches(sets[m], Indicator(genes, geneSets[keys[m]]), w, nperm, scale, single, draws[m])
  {
    sets := [];
    for m := 0 to |keys|
      invariant |sets| == m
      invariant forall q :: 0 <= q < m ==>
        SetMatches(sets[q], Indicator(genes, geneSets[keys[q]]), w, nperm, scale, single, draws[q])
    {
      var scores := ScoreGeneSet(Indicator(genes, geneSets[keys[m]]), w, nperm, scale, single, draws[m]);
      sets := sets + [scores];
    }
  }
}
