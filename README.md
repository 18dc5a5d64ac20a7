# GSEApy enrichment core in Dafny

This project models the numeric core of GSEApy's gene set enrichment analysis
(`gseapy/algorithm.py`) and proves properties of it:

- **Running-sum enrichment score** (`enrichment_score`). A ranked gene list is turned into a
  hit indicator for one gene set. Hits are weighted by `|correlation| ** p` (1 for the classic
  score, p = 0). The running sum steps up by the normalised hit weight and down by
  `1 / Nmiss`. The enrichment score (ES) is the running-sum value furthest from zero, and the
  negative minimum wins a tie of magnitudes. With `esnull = n`, the indicator is tiled into n
  rows, each row is shuffled in place, and only the n null scores are returned.
- **Tensor path** (`enrichment_score_tensor`, one-dimensional gene list). The gene sets are
  taken in sorted name order. For each set, nperm + 1 copies of the indicator are made, and
  the first nperm copies are shuffled. Each copy gets a running sum, optionally divided by
  the gene-list length. Each copy then gets either the extremum score or, for single-sample
  scoring, the sum of the running sum. The last, unshuffled copy gives the observed score
  and curve.
- **Nominal p-value** (`gsea_pval`). It counts the nulls on the observed score's side of
  zero that are at least as extreme as the score.
- **Normalisation** (`normalize`, and the NES block of `gsea_significance`). A score is
  divided by the mean of the same-sign nulls. For negative scores the sign is kept.
- **FDR q-values** (`gsea_significance`). All normalised nulls are pooled and sorted, and so
  are the observed NES values. `searchsorted` counts give `pi_norm / pi_obs`, which is capped
  at 1. The value 1e9 is used where the Python division raises.

Modelling choices:

- Floating-point values are exact `real`s.
- A value that numpy produces as NaN or infinity is `None` of an `Option`:
  - the running sum and ES when there are no misses or the hit weights sum to zero;
  - a p-value whose denominator count is zero;
  - a normalised score whose mean is missing or zero.
- `RandomState.shuffle` is Fisher-Yates with caller-supplied draws. Draw t lies in
  `[0, n-1-t]` and is swapped with position `n-1-t`. The shuffle works in place on one row of
  an `array2<bool>`.
- `sys.exit` after a negative weight exponent is the result `Err(NegativeWeight)`. A
  numpy call that raises is an `Err` too:
  - `np.max` over an empty gene list is `EmptyReduction`;
  - `np.vstack` of no gene sets is `NoGeneSets`;
  - `np.apply_along_axis` over zero permutations is `NoPermutations`.
- `np.sort` / `sorted` is a sorting function on sequences of reals.
- `np.searchsorted` is a binary search proved equal to a threshold count.

Modules:

- `Common`: Option/Result, sums, extrema and threshold counts.
- `Names`: the sorted order of gene-set names.
- `Permutation`: draws, Fisher-Yates, in-place shuffles of `array2` rows.
- `Enrichment`: `enrichment_score` and the tensor path.
- `Search`: sorting and `searchsorted`.
- `Significance`: p-values, normalisation, FDR, `gsea_significance`.

The fallbacks written into the code do not take effect on numpy values, so the model
follows the division:

- `gsea_pval` keeps a fallback to p = 1.0 only as commented-out code (lines 463-464). An
  empty null side therefore gives NaN.
- The fallbacks to 0.0 in `normalize` (line 485) and in the NES block of `gsea_significance`
  (lines 529-531) cannot fire. Dividing by a numpy float64 zero, or by the NaN mean of an
  empty slice, gives inf or NaN rather than raising.
- The tensor path divides by `P_GW_denominator` and `P_NG_denominator` (`TensorCurve`),
  while `enrichment_score` multiplies by their reciprocals. `TensorCurveAgrees` proves the
  two curves equal for every exponent p > 0.

## Model

| member | source | states |
|---|---|---|
| Enrichment.Indicator | gseapy/algorithm.py:46 | one flag per ranked gene, so the indicator has the gene list's length |
| Enrichment.HitIndices | gseapy/algorithm.py:54 | the hit positions, strictly increasing, containing exactly the positions whose flag is set, as many as the hits |
| Enrichment.IndicatorHits | gseapy/algorithm.py:46-54 | a position is a hit index exactly when it is in range and its gene belongs to the set |
| Enrichment.Weights | gseapy/algorithm.py:48-51 | the weights are non-negative and as many as the genes, and all equal 1 for the classic score p = 0 |
| Permutation.HitCount | gseapy/algorithm.py:67 | `Nhint` is at most the list's length, and equals it exactly when every position is a hit |
| Enrichment.HitWeight | gseapy/algorithm.py:68 | `sum_correl_tag`, the summed weight of the hits, is non-negative for non-negative weights |
| Enrichment.MissCount | gseapy/algorithm.py:70-71 | `Nmiss` is zero exactly when every position is a hit |
| Enrichment.Steps | gseapy/algorithm.py:72-75 | one step per position; the body is the `tag * w * norm_tag - no_tag * norm_no_tag` term of line 75, whose sums `RunningSum` and `RunningSumBounds` state |
| Enrichment.RunningSum | gseapy/algorithm.py:66-75 | the running sum is defined (not NaN) exactly when the gene list is empty or there is a miss and the hit weights do not sum to zero, and then it has one value per gene |
| Enrichment.DegenerateIff | gseapy/algorithm.py:67-73 | there are no misses exactly when every gene is a hit, and the hit weight sum is zero exactly when every hit has weight zero |
| Enrichment.RunningSumBounds | gseapy/algorithm.py:66-75 | every running-sum value lies in [-1, 1] and the last one is 0 (hits and misses each sum to one once normalised) |
| Enrichment.ClassicSteps | gseapy/algorithm.py:48-49 | with p = 0 each step is +1/Nhit at a hit and -1/Nmiss at a miss |
| Enrichment.Extremum | gseapy/algorithm.py:76-77 | the score is a running-sum value of largest magnitude, and the smaller value on a tie of magnitudes |
| Enrichment.ExtremumUnique | gseapy/algorithm.py:76-77 | any value with the extremum's three properties is the extremum |
| Enrichment.Scale | gseapy/algorithm.py:166 | each value divided by the gene count: the same length, and multiplying back by the count gives the original curve |
| Enrichment.Score | gseapy/algorithm.py:167-173 | in two-class mode the score is a value of the curve of largest magnitude; in single-sample mode the body is the sum of line 169 |
| Enrichment.ReplicateCurve | gseapy/algorithm.py:163-166 | one copy's curve, scaled only when `scale` holds and the list is non-empty, is defined exactly when the list is empty or not degenerate, and has one value per gene |
| Enrichment.ScaledScore | gseapy/algorithm.py:166-173 | dividing the curve by n divides the extremum score and the single-sample sum by n |
| Enrichment.ReplicateScore | gseapy/algorithm.py:163-173 | one copy's score is defined exactly when its running sum is; an empty copy has single-sample score 0.0, and the two-class score needs a gene |
| Enrichment.ScaledReplicateBounds | gseapy/algorithm.py:101-173 | with `scale`, every defined score of a copy, single-sample or two-class, lies in [-1, 1], the ES range the tensor path documents |
| Enrichment.UnscaledSingleExceedsUnit | gseapy/algorithm.py:166-169 | without `scale`, the single-sample score of [hit, hit, miss] with unit weights is 1.5, outside [-1, 1] |
| Enrichment.ScoreBounds | gseapy/algorithm.py:76-77 | the unscaled ES lies in [-1, 1], is a running-sum value, and dominates every value in magnitude |
| Enrichment.DefinedIff | gseapy/algorithm.py:46-73 | the observed ES is defined exactly when some gene is outside the set and some gene in it has non-zero weight |
| Enrichment.ObservedEnrichment | gseapy/algorithm.py:41-82 | for a non-empty gene list, the (ES, hit indices, RES) triple: correct hit positions, ES and RES are defined together and under the condition above, RES ends at 0 within [-1, 1], ES is its extremal value |
| Enrichment.EnrichmentScore | gseapy/algorithm.py:41-82 | fails (`np.max` over an empty axis) exactly for an empty gene list; otherwise without nulls it returns the observed triple, and with n nulls n scores, the k-th being the score of the indicator shuffled with draw sequence k |
| Enrichment.NullReplicate | gseapy/algorithm.py:58-73 | a shuffled replicate keeps the hit and miss counts, and for a non-empty gene list its score, when defined, lies in [-1, 1] |
| Enrichment.TensorWeightsAsWritten | gseapy/algorithm.py:113-123 | as written, only p > 0 yields weights; p == 0 fails on the unassigned N, p < 0 exits |
| Enrichment.ClassicTensorRaisesAsWritten | gseapy/algorithm.py:113-115 | the classic score fails as written while the corrected weights are the all-ones weights |
| Enrichment.TensorWeights | gseapy/algorithm.py:113-139 | weights exist exactly for p >= 0, non-negative and one per gene, all ones for p = 0; otherwise the negative-weight error |
| Enrichment.RankAlpha | gseapy/algorithm.py:139 | `(tag * cor) ** p`, one value per gene; for p = 0 every value, misses included, is 1 as `0 ** 0` gives |
| Enrichment.NoTag | gseapy/algorithm.py:137 | `1 - tag`, one value per gene; its sum is stated by `NoTagSum` |
| Enrichment.TensorCurve | gseapy/algorithm.py:161-163 | the division form of the curve, one value per gene when defined; `TensorCurveAgrees` ties it to `RunningSum` for p > 0 and `ClassicTensorCurveAsWritten` shows p = 0 |
| Enrichment.RankAlphaSum | gseapy/algorithm.py:139-161 | for p > 0, `P_GW_denominator` equals the summed hit weight of `enrichment_score`, misses contributing `0 ** p = 0` |
| Enrichment.NoTagSum | gseapy/algorithm.py:137-162 | `P_NG_denominator` equals the miss count Nmiss |
| Enrichment.TensorCurveAgrees | gseapy/algorithm.py:137-163 | for every p > 0 the tensor's curve equals `enrichment_score`'s RES, NaN in exactly the same cases |
| Enrichment.ClassicTensorCurveAsWritten | gseapy/algorithm.py:139 | with p = 0 as written, the two-gene list [hit, miss] gets the tensor curve [0.5, 0.0] where `enrichment_score` gives [1.0, 0.0] |
| Enrichment.ScoreGeneSet | gseapy/algorithm.py:129-176 | a set's hit indices, observed score and curve come from the unshuffled copy; its nperm null scores come from the copies shuffled with each draw sequence |
| Enrichment.ScoreGeneSets | gseapy/algorithm.py:129-176 | one row per key, in key order, each holding that set's scores as described for ScoreGeneSet |
| Enrichment.EnrichmentScoreTensor | gseapy/algorithm.py:108-178 | with the corrected weights of the "## Findings" row (as written p = 0 also fails, on the unbound N), fails exactly for negative p (exit), no gene sets (`np.vstack`), nperm = 0 (`np.apply_along_axis`) or an empty gene list in two-class mode (`max`), each with its error; otherwise rows follow the sorted set names and each row holds that set's scores as described for ScoreGeneSet |
| Names.SortedNames | gseapy/algorithm.py:111 | the names in strictly increasing code-point order, each exactly once |
| Names.LexTotal | gseapy/algorithm.py:111 | distinct names are ordered one way or the other |
| Permutation.Tile | gseapy/algorithm.py:61 | a fresh array whose every row is the indicator |
| Permutation.Shuffle | gseapy/algorithm.py:64 | the row after every swap of the Fisher-Yates walk (also the shuffle of line 135), the same length; `ShufflePermutes` and `ShuffleKeepsHitCount` state what it keeps |
| Permutation.ShuffleRow | gseapy/algorithm.py:64 | the row becomes the Fisher-Yates shuffle of its old contents, and every other row is unchanged |
| Permutation.ShuffleRows | gseapy/algorithm.py:64 | the first count rows are shuffled each with its own draws and the remaining rows are unchanged |
| Permutation.ShufflePermutes | gseapy/algorithm.py:64 | a shuffle is a permutation: it keeps the multiset of elements |
| Permutation.ShuffleKeepsHitCount | gseapy/algorithm.py:64-71 | a shuffled indicator has as many hits as the unshuffled one |
| Search.SortReals | gseapy/algorithm.py:542-543 | the result is sorted and a permutation of the input |
| Search.SearchSortedLeft | gseapy/algorithm.py:550-557 | the left insertion point: everything before it is below x, everything from it on is at least x; it equals the count of elements below x |
| Search.SearchSortedRight | gseapy/algorithm.py:556-558 | the right insertion point: everything before it is at most x, everything from it on is above x; it equals the count of elements at most x |
| Significance.PValue | gseapy/algorithm.py:457-460 | NaN exactly when no null lies on the score's side of zero; otherwise a value in [0, 1] |
| Significance.PValueMonotone | gseapy/algorithm.py:457-460 | a score further from zero on the same side never gets a larger p-value |
| Significance.MeanPos | gseapy/algorithm.py:509 | the mean of the non-negative nulls exists exactly when there is one |
| Significance.MeanNeg | gseapy/algorithm.py:511 | the mean of the negative nulls exists exactly when there is one |
| Significance.MeanPosSign | gseapy/algorithm.py:509 | the non-negative nulls' mean exists exactly when there is one, is >= 0, and is > 0 exactly when some null is positive |
| Significance.MeanNegSign | gseapy/algorithm.py:511 | the negative nulls' mean exists exactly when there is one, and is negative |
| Significance.NullMeans | gseapy/algorithm.py:507-512 | one (positive mean, negative mean) pair per gene set, each the mean of that row's same-sign nulls |
| Significance.NormalizedScore | gseapy/algorithm.py:521-527 | the `np.select` entry is finite exactly when the mean of the score's own sign exists and is non-zero, and then, times that mean, gives back x for x >= 0 and -x for x < 0 |
| Significance.Normalized | gseapy/algorithm.py:525-527 | a row of finite normalised scores, entry by entry the `NormalizedScore` of the row |
| Significance.NormalizedKeepsSign | gseapy/algorithm.py:520-527 | a normalised score is finite exactly when its same-sign mean is non-zero; it keeps the sign of the score and is zero only for a zero score |
| Significance.Normalize | gseapy/algorithm.py:468-485 | zero maps to 0.0; the result is NaN or infinite exactly when a positive score has no positive null or a negative score has no negative null; otherwise the strict sign is kept |
| Significance.NormalizeMatchesNes | gseapy/algorithm.py:468-531 | normalize agrees with the vectorised NES for every non-zero score, and for zero differs only when no null is positive |
| Significance.NullNes | gseapy/algorithm.py:525-527 | every normalised null keeps the sign of its null score |
| Significance.FlattenSameSignCounts | gseapy/algorithm.py:542 | pooling sign-preserving rows keeps the numbers of non-negative and negative values |
| Significance.FdrRatio | gseapy/algorithm.py:559-566 | the sentinel 1e9 whenever a denominator or `pi_obs` is zero (Python's ZeroDivisionError), and otherwise `pi_norm / pi_obs` capped at 1, which lies in [0, 1] |
| Significance.Fdr | gseapy/algorithm.py:549-566 | the q-value from the counts of the side of x: either the sentinel or a value in [0, 1] |
| Significance.FdrBounds | gseapy/algorithm.py:546-566 | for an observed NES the q-value is the 1e9 sentinel exactly when the pooled nulls have no value of its sign; otherwise it lies in [0, 1] |
| Significance.FdrOf | gseapy/algorithm.py:547-566 | four searchsorted lookups in the sorted arrays give the count-defined q-value |
| Significance.Fdrs | gseapy/algorithm.py:542-566 | after sorting both arrays, the i-th q-value is the count-defined q-value of the i-th NES |
| Significance.CountFlattenRow | gseapy/algorithm.py:542 | pooling the rows counts at least as many values as any one row |
| Significance.AllFdrBounds | gseapy/algorithm.py:542-566 | with every NES finite, each set's own row holds a null of its sign, so no q-value is the sentinel and each lies in [0, 1] |
| Significance.GseaSignificance | gseapy/algorithm.py:488-570 | per gene set: the ES, an NES with the ES's sign, a p-value in [0, 1], and a q-value in [0, 1] |

## Left out

- Random number generation: `RandomState` is replaced by explicit draw sequences, one
  per shuffled row, which the caller supplies.
- The two-dimensional (`gene_mat.ndim == 2`) path of `enrichment_score_tensor` and its
  unsupported-input exit is not part of this model.
- Ranking metrics, `gsea_compute` / `gsea_compute_ss` orchestration, GMT parsing,
  plotting, logging and multiprocessing are not part of this model.
- Floating-point rounding: reals are exact, so results that differ only in rounding are
  the same here.
- Enrichment.ObservedEnrichment: it requires a non-empty gene list. The `ValueError` of
  `np.max` on an empty list is the `EmptyReduction` result of `EnrichmentScore`.
- Enrichment.EnrichmentScoreTensor: the ES range [-1, 1] that the tensor path's docstring
  (line 101) states holds only with `scale` (`ScaledReplicateBounds`). Without it, as
  `gsea_compute_ss` calls the path (line 439), a single-sample score can exceed 1
  (`UnscaledSingleExceedsUnit`). No bound is promised there.
- Enrichment.Weights: the exponent is a natural number; the non-integer exponents that
  `weighted_score_type` allows (such as 1.5) are not modelled.
- Significance.GseaSignificance: it requires every NES and every normalised null to be
  finite. The NaN values that numpy would otherwise carry into the sort and the
  `searchsorted` lookups are not modelled. `PValue`, `Normalize`, `NullMeans` and
  `NormalizedScore` do model the NaN cases on their own.
- Significance.GseaSignificance: the 1e9 sentinel of line 566 is never produced. Under the
  finite-NES requirement every set's own nulls include one of its sign, so no division
  fails. The sentinel is reached only through a NaN NES, which is not modelled. `FdrBounds`
  states the sentinel case for an arbitrary pool.
- Significance.GseaSignificance: the `except` around the NES block cannot fire on numpy
  arrays. It is left out, and so is the vectorised `gsea_pval` call. The p-value per set is
  `PValue` on its row.
- Significance.Normalize: its `except` fallback of 0.0 cannot fire, because numpy
  division gives inf or NaN instead of raising. That path is left out.

## Findings

| source | as written | input that shows it | evidently intended | confidence | as-written member | corrected member |
|---|---|---|---|---|---|---|
| gseapy/algorithm.py:113-115 | with `weighted_score_type == 0` the tensor path calls `np.repeat(1, N)` before `N` is assigned (line 128), which raises `UnboundLocalError`; even with `N` bound, `(tag * 1) ** 0` at line 139 would weigh misses as 1 (`ClassicTensorCurveAsWritten`) | `weighted_score_type = 0` with any one-dimensional gene list | the classic unweighted score of `enrichment_score`: weight 1 for every hit | not executed | Enrichment.TensorWeightsAsWritten | Enrichment.TensorWeights |
