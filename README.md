# PyDockStats statistics core in Dafny

PyDockStats compares docking programs by their virtual-screening
performance. For each program it does the following:

- It takes the scores of known ligands (actives) and decoys.
- It fits a logistic model that turns scores into activity probabilities.
- It derives a Predictiveness Curve from those probabilities: the
  probabilities in ascending order against the quantile `k / N`.
- It computes an enrichment factor (EF) per quantile, the prevalence of
  actives and the quantile where the curve turns steep.

This project models the parts of that pipeline that are counting, sorting,
slicing and exact division. It also models the stateful bookkeeping of the
Streamlit app around them: the `Program` objects and the registry of
program expanders.

The modules follow the repository's files:

| module | file | what it holds |
|---|---|---|
| `Seqs` | (shared helpers) | sums, counts of ones, reversal, Python's `int()` on floats (`Trunc`, toward zero), Python slice bounds (`SliceIndex`), first-minimum `argmin` |
| `Ranking` | (argsort) | `np.argsort` plus fancy indexing, as a *ranking*: the (prediction, label) pairs rearranged in order of prediction, ties in any order |
| `Calcs` | `src/utils/calcs.py` | ROC threshold choice, hit counting, EFs, total gain, the rank extraction and branch choice of BEDROC |
| `PUtils` | `src/utils/putils.py` | `scale`, `num_derivative`, `find_nearest` |
| `DockStats` | `src/model/pydockstats.py` | quantile axis, column selection, the Predictiveness-Curve series with its EFs and prevalence, `calculate_selected_x` |
| `LegacyDockStats` | `pydockstats.py` | the older curve code: shuffled preprocessing, and the EF series that uses the quantile as a slice index |
| `Programs` | `src/components/program.py` | class `Program` and its state changes |
| `Expanders` | `src/components/expander.py` | the shared id counter and the `ProgramsExpanders` registry |
| `AppUtils` | `src/utils/app_utils.py` | `convert_line_dash` and `format_trace_label` |

How the model represents the source:

- **Probabilities.** The logistic model's output is an input sequence of
  reals.
- **Rankings.** numpy's default sort is not stable. So every operation that
  ranks takes the ranking as a parameter, with the requirement
  `IsRanking(r, preds, labels, descending)`, and its contract holds for
  every tie order. `Ranking.RankDescending` shows that a ranking always
  exists.
- **Undefined results.** A numpy division that comes out NaN or infinite, a
  Python `ZeroDivisionError` and an `IndexError` are all failures: `None`,
  or `Failure(...)` of a `Result`.
- **Arithmetic.** Reals are exact.
- **Tables.** A pandas table is its `score` column, a sequence of optional
  reals. The frame that `generate` builds is a `Frame` of named columns.
- **Classes.** `Program` and `ProgramsExpanders` are classes whose methods
  update their fields. `ProgramExpander.count` is a class attribute, so it
  is modelled as an `IdCounter` object that every expander shares.

## Model

| member | source | states |
|---|---|---|
| Seqs.SliceIndex | src/utils/calcs.py:10 | a Python slice bound: a negative bound counts from the end, and the result is clamped to the sequence |
| Seqs.Trunc | src/utils/calcs.py:10 | Python's `int()` on a float truncates toward zero: the result is the integer at most one away from `x` on the side of 0 |
| Seqs.CountOnes | src/utils/calcs.py:12-13 | the size of `np.where(a == 1)` is at most the length; `Seqs.CountOnesIsMultiplicity` makes it the multiplicity of 1 |
| Seqs.ArgMin | src/utils/calcs.py:5 | `np.argmin` is the first index that holds the least value |
| Seqs.CountOnesSuffixMonotone | src/utils/calcs.py:10-13 | a suffix that starts later holds no more ones |
| Seqs.SumPermutation | src/utils/calcs.py:58-66 | rearranging the labels does not change their sum |
| Ranking.RankingContents | src/utils/calcs.py:51-52 | a ranking carries exactly the input labels and the input predictions, rearranged |
| Ranking.RankingPreservesActives | src/utils/calcs.py:51-52 | ranking keeps the number of compounds, the label sum and the number of actives, and keeps 0/1 labels 0/1 |
| Ranking.InsertDescending | src/model/pydockstats.py:57 | inserting a pair into a descending ranking gives a descending ranking of one more pair, holding all the old pairs plus the new one |
| Ranking.SortDescending | src/model/pydockstats.py:57 | sorting gives a descending arrangement of the same pairs |
| Ranking.RankDescending | src/model/pydockstats.py:57 | every input has a ranking by descending prediction (`np.argsort(-predictions)`) |
| Ranking.RankAscending | pydockstats.py:43 | every input has a ranking by ascending prediction (`np.argsort(predictions)`) |
| Ranking.DistinctRankingUnique | src/utils/calcs.py:51-52 | with pairwise distinct predictions there is only one descending ranking, so the tie order does not matter |
| Ranking.FallingRankingUnique | src/utils/calcs.py:51-52 | a sequence of strictly falling predictions is the only descending ranking of its pairs |
| Calcs.OptimalThreshold | src/utils/calcs.py:3-7 | the threshold at the first ROC point that minimises the distance to the anti-diagonal; no value for empty or mismatched inputs or when that index is past the thresholds |
| Calcs.CalculateHits | src/utils/calcs.py:9-16 | counts the ones in the labels from `int(idx)` on and the ones in all of `activity`; a start index in (-1, 1) counts every one, a start index past the end counts none |
| Calcs.HitsWithinTotal | src/utils/calcs.py:9-16 | over a rearrangement of `activity`, the hits are at most the total, and equal to it when the start truncates to 0 |
| Calcs.HitsNonIncreasing | src/utils/calcs.py:10-13 | a later non-negative start index never finds more hits |
| Calcs.CalculateEF | src/utils/calcs.py:19-20 | the EF is defined exactly when there are hits in total and the fraction is non-zero, and then the EF times hits-times-fraction gives the hits found |
| Calcs.EfRatio | src/utils/calcs.py:66 | the two ratios of the EF equal `top * n / (total * cutoff)` |
| Calcs.Cutoff | src/utils/calcs.py:55 | `int(N * top_percentage)` of a non-negative fraction is the largest integer not above `N * top_percentage` |
| Calcs.TopActives | src/utils/calcs.py:58 | for 0/1 labels the actives among the first `cutoff` ranked compounds number at most the (clamped) cutoff and at most all actives |
| Calcs.CalculateEnrichmentFactor | src/utils/calcs.py:32-68 | fails with a length mismatch exactly when the lengths differ; otherwise it succeeds exactly when the cutoff `int(N * fraction)` and the number of actives are non-zero, and then gives `top_actives * N / (actives * cutoff)` over the descending ranking |
| Calcs.EfRatioBounds | src/utils/calcs.py:66 | with at most all actives in the top, the EF lies in [0, N / cutoff] |
| Calcs.CutoffWithinPopulation | src/utils/calcs.py:55 | a fraction in [0, 1] gives a cutoff in [0, N] |
| Calcs.EnrichmentFactorBounds | src/utils/calcs.py:51-66 | for 0/1 labels the actives in the top are at most the cutoff and at most all actives, and the EF lies in [0, N / cutoff] |
| Calcs.EnrichmentFactorWholePopulation | src/utils/calcs.py:55-66 | with fraction 1 every active is found and the EF is exactly 1, for every ranking |
| Calcs.EnrichmentFactorWorkedExample | src/utils/calcs.py:55-66 | predictions 5,4,3,2,1 with labels 1,1,0,0,0 at fraction 0.4: the cutoff is 2 and the EF is 2.5, for every ranking |
| Calcs.ExampleRankingUnique | src/utils/calcs.py:51-52 | the worked example has exactly one descending ranking, the input order |
| Calcs.SumAbsDeviation | src/utils/calcs.py:24 | a sum of absolute deviations is never negative |
| Calcs.CalculateTG | src/utils/calcs.py:23-24 | the total gain is defined exactly when the prevalence `p` is neither 0 nor 1; it is non-negative for `p` in (0, 1) and 0 for an empty input |
| Calcs.CalculatePTG | src/utils/calcs.py:27-30 | the partial total gain is defined exactly when `p` is neither 0 nor 1, is non-negative for `p` in (0, 1), and equals the total gain when the start index is 0 |
| Calcs.ActivePositions | src/utils/calcs.py:131 | the positions of the ones, strictly increasing, one per active, each inside the labels, and no active position missing |
| Calcs.RankedActivePositions | src/utils/calcs.py:126-131 | the active positions of a ranking's labels are its active ranks, one per active compound |
| Calcs.BedrocRankExtraction | src/utils/calcs.py:123-136 | fails on mismatched lengths and (dividing by zero) on empty input; otherwise `big_n` is N, `n` is the number of actives, `m_rank` is exactly the increasing positions of the actives in the ranking, `r_a * N == n`, and the small-ratio branch is taken exactly when `alpha * n < N` |
| Calcs.ActiveRatio | src/utils/calcs.py:133-136 | `r_a` is `n / big_n`, and the test `alpha * r_a < 1` is `alpha * n < big_n` |
| Calcs.RatioBranch | src/utils/calcs.py:136 | with `r_a = n / N`, `alpha * r_a < 1` holds exactly when `alpha * n < N` |
| PUtils.Max | src/utils/putils.py:6 | the maximum is an element and no element exceeds it |
| PUtils.Scale | src/utils/putils.py:5-9 | no value exactly for an empty input or a zero maximum; otherwise every result times the maximum gives back its input |
| PUtils.DivideAll | src/utils/putils.py:7 | every quotient times the divisor gives back its input |
| PUtils.ScaleBounds | src/utils/putils.py:5-9 | with a positive maximum every scaled value is at most 1 and some value is exactly 1 |
| PUtils.ScaleIdempotent | src/utils/putils.py:5-9 | with a positive maximum, scaling a scaled array changes nothing |
| PUtils.Midpoints | src/utils/putils.py:16-18 | one midpoint per consecutive pair |
| PUtils.Slopes | src/utils/putils.py:13 | one slope per step, and each slope times the step in x gives the step in y |
| PUtils.MidpointsBetween | src/utils/putils.py:16-18 | over strictly increasing x each midpoint lies strictly inside its interval, and the midpoints strictly increase |
| PUtils.SlopesNonNegative | src/utils/putils.py:13 | a non-decreasing y over strictly increasing x has no negative slope |
| PUtils.NumDerivative | src/utils/putils.py:12-20 | the loop appends exactly the midpoints; `yprime` is the slopes; both have `len(x) - 1` entries |
| PUtils.FindNearest | src/utils/putils.py:24-27 | no value for an empty array; otherwise the element at the first index of least distance, and no element is closer |
| PUtils.FindNearestMember | src/utils/putils.py:24-27 | a value that is in the array is its own nearest element |
| DockStats.GeneratePercentiles | src/model/pydockstats.py:23-25 | N entries whose entry `k` times N is `k + 1` |
| DockStats.PercentilesShape | src/model/pydockstats.py:23-25 | the quantiles strictly increase, the first is `1 / N`, the last is exactly 1, and all lie in (0, 1] |
| DockStats.PercentilesDistinct | src/model/pydockstats.py:106-107 | consecutive quantiles differ, so the derivative over them is defined |
| DockStats.Column | src/model/pydockstats.py:31-32 | a column has one entry per row |
| DockStats.NextKept | src/model/pydockstats.py:28 | the first column at or after `from` that survives `dropna`; every column skipped on the way holds no value |
| DockStats.PreprocessData | src/model/pydockstats.py:27-34 | succeeds exactly when two columns hold a value; then scores and activity are the first two such columns, one entry per row; otherwise it fails as `cols[1]` does |
| DockStats.CalculateCurves | src/model/pydockstats.py:41-90 | fails (zero division in the prevalence) exactly on empty input; otherwise `x`, `y` and `efs` have one entry per compound, `x` is the quantile axis, `y` is the predictions in non-decreasing order (a permutation of them), the prevalence is actives / N, and `efs[k]` is the EF at fraction `1 - x[k]` |
| DockStats.PercentileEfs | src/model/pydockstats.py:68 | one EF per quantile |
| DockStats.AscendingSeries | src/model/pydockstats.py:57-58 | the reversed descending ranking lists every prediction, in non-decreasing order |
| DockStats.TopEf | src/utils/calcs.py:55-66 | the EF of the `c` best-ranked compounds is defined exactly when `c`, the number of actives and N are non-zero, and is then `top * N / (actives * c)` |
| DockStats.CutoffAtPercentile | src/model/pydockstats.py:68 | the top fraction `1 - (k+1)/N` of N compounds has cutoff `N - k - 1` |
| DockStats.EnrichmentFactorAtCutoff | src/model/pydockstats.py:68 | the EF at a fraction whose cutoff is `c` is the EF of the `c` best-ranked compounds, undefined for an empty top or no actives |
| DockStats.CurveEfAtCutoff | src/model/pydockstats.py:66-68 | entry `k` of the EF series is the EF of the `c` best-ranked compounds, where `c` is the cutoff of `1 - x[k]`; it is undefined for an empty top, so at the last quantile, or for no actives |
| DockStats.PrevalenceBounds | src/model/pydockstats.py:67-84 | with 0/1 labels the prevalence is the share of actives and lies in [0, 1] |
| DockStats.ShareBounds | src/model/pydockstats.py:84 | a share of at most the whole lies in [0, 1] |
| DockStats.FirstAbove | src/model/pydockstats.py:110 | the first index whose entry exceeds the threshold; no entry before it does |
| DockStats.ScaledSlopes | src/model/pydockstats.py:107-108 | `scale(y_hat_prime)`, when defined, has one entry per midpoint |
| DockStats.SteepIndex | src/model/pydockstats.py:106-110 | `np.argmax(y_hat_prime > 0.34)` is an index of the midpoints: the first scaled slope above 0.34, every earlier one at most 0.34; index 0 when no slope exceeds 0.34 or the scaling is undefined |
| DockStats.ArgmaxAboveUnique | src/model/pydockstats.py:110 | the index `np.argmax` picks from a mask is unique |
| DockStats.SteepIndexIs | src/model/pydockstats.py:110 | any index with the argmax property of the mask `y_hat_prime > 0.34` is the steep index |
| DockStats.CalculateSelectedX | src/model/pydockstats.py:106-111 | defined exactly for at least two predictions, and then lies in (0, 1] |
| DockStats.ScaledMidpointBounds | src/model/pydockstats.py:107-108 | the quantile midpoints scaled by the largest one lie in (0, 1] |
| DockStats.SelectedXIsScaledMidpoint | src/model/pydockstats.py:106-111 | for `k` the first index whose scaled slope exceeds 0.34 (0 when none does), the selected quantile is midpoint `k` scaled by the largest midpoint |
| DockStats.SelectedXAtSteepIndex | src/model/pydockstats.py:106-111 | the selected quantile is the scaled midpoint at the steep index, which is in range |
| DockStats.SelectedXClosedForm | src/model/pydockstats.py:106-111 | for `k` the first index whose scaled slope exceeds 0.34 (0 when none does), the selected quantile times `2N - 1` is `2k + 3` |
| DockStats.MidpointAt | src/model/pydockstats.py:107 | the midpoint `k` of the quantiles is `(2k + 3) / 2N` |
| DockStats.LastMidpointAt | src/model/pydockstats.py:107-108 | the last midpoint of the quantiles is `(2N - 1) / 2N` |
| DockStats.LastMidpointIsMax | src/model/pydockstats.py:108 | the largest quantile midpoint is the last one, and it is positive |
| DockStats.MaxOfIncreasing | src/utils/putils.py:6 | the maximum of a strictly increasing array is its last entry |
| DockStats.ScaledMidpointAt | src/model/pydockstats.py:106-111 | each scaled quantile midpoint, so also the selected quantile, is `(2k + 3) / (2N - 1)` |
| LegacyDockStats.LegacyPreprocessData | pydockstats.py:29-37 | after the shuffle, column selection succeeds exactly when it does on the unshuffled frame, and gives the same multiset of (score, activity) rows |
| LegacyDockStats.ShufflePreservesColumns | pydockstats.py:30-31 | shuffling rows keeps the row count and which columns hold a value |
| LegacyDockStats.NextKeptAgrees | pydockstats.py:31 | frames with values in the same columns keep the same columns |
| LegacyDockStats.LegacyCalculateCurves | pydockstats.py:39-56 | fails exactly on empty input; otherwise one entry per compound, `x` the quantile axis, `y` the predictions in ascending order (a permutation of them), the prevalence actives / N, and `efs[k]` the EF of `calculate_hits` started at `x[k]` |
| LegacyDockStats.AscendingPredictions | pydockstats.py:43-47 | an ascending ranking lists every prediction in non-decreasing order |
| LegacyDockStats.LegacyEfs | pydockstats.py:51 | one EF per quantile; `LegacyDockStats.LegacyCurveEfIsReciprocal` and `LegacyDockStats.LegacyEfUndefined` give the entries |
| LegacyDockStats.LegacyEfIgnoresRanking | pydockstats.py:51 | when some active exists (the total of hits is non-zero), for `k < N - 1` the start index truncates to 0, so the EF is `1 / (1 - x[k])` whatever the ranking |
| LegacyDockStats.EfOfAllHits | pydockstats.py:51 | with a start index in (0, 1) every active is a hit and the EF is the reciprocal of the fraction |
| LegacyDockStats.LegacyCurveEfIsReciprocal | pydockstats.py:39-51 | on the whole curve, entry `k < N - 1` is at quantile `(k+1)/N` and has EF `1 / (1 - x[k])` whenever an active exists, for every ranking |
| LegacyDockStats.LegacyEfUndefined | pydockstats.py:51 | the last entry, at quantile 1, divides by zero; with no actives every entry does |
| LegacyDockStats.LegacyEfMisreadsQuantile | pydockstats.py:51 | predictions 5,4,3,2,1 with labels 0,0,0,1,1: at the third quantile the legacy EF is 2.5 while the current EF is 0 |
| LegacyDockStats.MisreadSeriesEf | src/model/pydockstats.py:68 | for that input the current EF series is 0 at quantile 3/5 |
| Programs.LabelledFrame | src/components/program.py:90-96 | the concatenated, labelled frame has two values per row |
| Programs.LabelledColumns | src/components/program.py:93-98 | column selection on the labelled frame succeeds exactly when some score is present, and then gives the ligand scores followed by the decoy scores, with `|ligands|` leading ones as activity |
| Programs.GenerateColumns | src/components/program.py:90-98 | the first half of `generate`: the same success condition and result |
| Programs.Program.constructor | src/components/program.py:5-26 | a new program has one-row tables with a missing score, both flags false and no metrics |
| Programs.Program.SetData | src/components/program.py:75-78 | both tables are replaced and `data_inputted` is set; `data_generated` and the metrics are unchanged |
| Programs.Generates | src/components/program.py:89-100 | `generate` completes exactly when some score is present and the curve computation succeeds on the labelled columns |
| Programs.Program.Generate | src/components/program.py:89-121 | the tables and `data_inputted` are unchanged; it fails exactly when no score is present (column error) or the curve computation fails, and then changes nothing; otherwise `data_generated` is set and every metric field comes from the curves computed on the labelled columns |
| Programs.Program.ToDict | src/components/program.py:123-127 | the checkpoint holds the two tables |
| Programs.Program.FromDict | src/components/program.py:129-131 | both tables come from the checkpoint; the flags and metrics are unchanged |
| Programs.Checkpoint | src/components/program.py:123-131 | `from_dict(to_dict())` into a new program of the same name restores both tables |
| Expanders.IdCounter.constructor | src/components/expander.py:7 | the counter starts at 1 |
| Expanders.ProgramExpander.constructor | src/components/expander.py:8-12 | the expander takes the counter's value as id and advances the counter by one |
| Expanders.NamesOf | src/components/expander.py:85-87 | one name per expander |
| Expanders.AddedNames | src/components/expander.py:89-93 | the names `from_data_dict` adds are keys of the dictionary that were not present |
| Expanders.AddedNamesDistinct | src/components/expander.py:101-103 | adding names that way keeps a duplicate-free list duplicate-free |
| Expanders.AddedNamesAll | src/components/expander.py:89-93 | distinct keys that are all new are all added, in order |
| Expanders.RemovePreserves | src/components/expander.py:106-107 | deleting one expander keeps names unique and ids increasing |
| Expanders.ProgramsExpanders.constructor | src/components/expander.py:74-75 | the registry starts empty, with unique names and increasing ids |
| Expanders.ProgramsExpanders.AddExpander | src/components/expander.py:101-103 | appends the expander exactly when its name is new; otherwise the list is unchanged |
| Expanders.ProgramsExpanders.AddProgram | src/components/expander.py:98-99 | keeps the registry valid; draws one id even when the name is taken; appends a new expander with that id exactly when the name is new |
| Expanders.ProgramsExpanders.AddProgramExpander | src/components/expander.py:95-96 | draws one id; when the name is taken nothing else changes; otherwise the old expanders stay a prefix and a fresh expander with that id and the given `expand` flag is appended, holding a fresh program of that name with empty tables and both flags false |
| Expanders.ProgramsExpanders.LoadItem | src/components/expander.py:90-93 | one item of `from_data_dict`: adds the item's program, collapsed and with its tables, exactly when the name is new |
| Expanders.ProgramsExpanders.FromDataDict | src/components/expander.py:89-93 | keeps the registry valid; draws one id per item; appends the new names in iteration order, skipping present ones; each new program carries its item's tables, no flag set and is collapsed |
| Expanders.ProgramsExpanders.RemoveExpander | src/components/expander.py:106-107 | removes exactly the first occurrence and keeps the others in order, or reports that the expander is absent |
| Expanders.ProgramsExpanders.AllDataInputted | src/components/expander.py:124-127 | false on an empty list, otherwise whether every program has data |
| Expanders.ProgramsExpanders.AllDataGenerated | src/components/expander.py:129-133 | false on an empty list, otherwise whether every program has been generated |
| Expanders.ProgramsExpanders.Names | src/components/expander.py:85-87 | `names`: the program names in list order |
| Expanders.ProgramsExpanders.Generate | src/components/expander.py:135-137 | when no program fails, every program is generated and its metric fields come from the curves computed on its labelled columns; a failure names a program whose `generate` raises (no score, or the curve computation fails): every program before it is generated that way, and it and every program after it are unchanged; tables and input flags are never changed, and no generated flag is reset |
| Expanders.ProgramsExpanders.ToDict | src/components/expander.py:139-140 | the keys are exactly the program names in list order, each mapped to its program's tables |
| Expanders.Reload | src/components/expander.py:89-93 | loading a saved registry into an empty one gives the same names, in order, with the same tables |
| Expanders.DistinctKeyLookup | src/components/expander.py:140 | with distinct keys each key names exactly one item |
| AppUtils.ConvertLineDash | src/utils/app_utils.py:42-48 | `'dash'` maps to `'--'`, `'dot'` to `':'`, and everything else, `None` included, to `'-'` |
| AppUtils.RemoveAll | src/utils/app_utils.py:51 | removal never lengthens a string |
| AppUtils.RemoveAllUnchanged | src/utils/app_utils.py:51 | removal leaves a string unchanged exactly when the pattern does not occur, and shortens it otherwise |
| AppUtils.OccursShift | src/utils/app_utils.py:51 | an occurrence in the tail is an occurrence one place later in the whole |
| AppUtils.FormatTraceLabel | src/utils/app_utils.py:50-51 | a formatted label is never longer than the input |
| AppUtils.FormatTraceLabelPlain | src/utils/app_utils.py:50-51 | a label never grows, and a label without `<` comes back unchanged |
| AppUtils.NoTagWithoutOpen | src/utils/app_utils.py:51 | a tag that starts with `<` does not occur in a string without `<` |
| AppUtils.FormatTraceLabelNotIdempotent | src/utils/app_utils.py:50-51 | `'<<b>br>'` becomes `'<br>'`, which formats to `''`, so formatting twice can differ from formatting once |

## Left out

- Logistic regression (`fit_predict` and the shared `MODEL`): an iterative floating-point optimiser. Its output, the predictions, is an input here.
- `roc_curve`, `auc` and `precision_recall_curve` are library calls whose algorithm is not in the repository. The ROC and precision-recall halves of `calculate_curves` are not modelled. In `Programs.Program.Generate` the whole curve computation is the parameter `computeCurves`, which may fail (`None`), as `LogisticRegression.fit` raises on labels of one class or on a missing score among present ones.
- `calculate_bedroc`, and the `exp`, `sinh` and `cosh` terms of `bedroc_score`: transcendental floating-point maths. Only the rank extraction and the branch choice are modelled.
- Floating-point rounding: reals are exact. In floats, `int(N * (1 - k/N))` can come out one below `N - k`.
- The `print` calls in `calculate_enrichment_factor`.
- File and network I/O: `read`, `read_result_file`, `save_plots`, the pickle checkpoint files and e-mail sending.
- `generate_artificial_scores` draws random numbers.
- Streamlit rendering and session plumbing:
  - the `render` methods;
  - the string-to-float conversion of pasted scores in `ProgramExpander.render`;
  - the deletion from `st.session_state['data']` and the `st.rerun()` in `__remove_expander`;
  - the session list the registry is bound to. The model starts from an empty list.
- The trivial properties `expanders`, `programs`, `is_remove_button_clicked` and `data_inputted` of the expander classes. `names` is `ProgramsExpanders.Names`.
- The root-level `expander.py`, `program.py` and `app_utils.py`: an older layer that calls methods its `program.py` does not define.
- Programs.Program: the twelve metric fields are held as one `Metrics` record, and each table is its `score` column. pandas returns and stores DataFrames by reference; the model stores values, so aliasing between a checkpoint and a program is not modelled.
- DockStats.CalculateCurves: `calculate_enrichment_factor` sorts the compounds again on every call. The model takes that sort as a second ranking parameter, `efRanked`, which may order ties differently from the curve's own ranking. It models the Predictiveness-Curve part of the result only.
- DockStats.CalculateSelectedX: its own contract gives only the range (0, 1]. Which midpoint is selected, and its closed form `(2k + 3) / (2N - 1)`, are stated by `DockStats.SelectedXIsScaledMidpoint` and `DockStats.SelectedXClosedForm`.
- DockStats.SteepIndex: with a zero maximum slope, `scale` yields NaN and infinities, and none of them exceeds 0.34. The model returns index 0 there, as `argmax` of an all-false array does.
- Expanders.ProgramsExpanders.RemoveExpander: `list.remove` raises `ValueError` for an absent expander; the model returns `false` and changes nothing.
- Expanders.ProgramsExpanders.Generate: the exception of the first program whose `generate` raises ends the loop. The model returns it as an error value. The method requires the registry's names to be unique, which every registry method keeps, so that the programs are distinct objects.
- PUtils.Slopes and PUtils.NumDerivative: `np.diff(y) / np.diff(x)` yields infinities or NaN where two consecutive `x` are equal. The model requires consecutive `x` to differ, which the quantile axis, their only input, always does.
- Calcs.OptimalThreshold: numpy broadcasts a length-1 `fpr` or `tpr` against the other in `fpr + tpr - 1`. The model treats any length difference as a mismatch and gives no value.
- LegacyDockStats.LegacyPreprocessData: the random shuffle is a parameter, constrained to be a row permutation.

## Findings

| source | as written | input that shows it | evidently intended | confidence | as-written member | corrected member |
|---|---|---|---|---|---|---|
| pydockstats.py:51 | the quantile `x` itself is passed as the start index to `calculate_hits`. `int(x)` truncates it to 0 for every quantile below 1, so every active counts as a hit and the EF is `1 / (1 - x)` whatever the ranking | predictions 5,4,3,2,1 with labels 0,0,0,1,1, at the third quantile 3/5: the legacy EF is 2.5, but the top 2 compounds hold no active | the EF of the top `1 - x` fraction by prediction, which is 0 here (`src/model/pydockstats.py:68` does this) | not executed | LegacyDockStats.LegacyEfMisreadsQuantile | DockStats.CurveEfAtCutoff |
