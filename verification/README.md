# Splicing dependency: a Dafny model

`target_spotter` estimates how much a cancer cell line depends on each
alternative-splicing event. A bootstrap ensemble of linear models gives, for
every (event, gene) pair, K coefficient draws for the event's PSI (percent
spliced in), for the gene's expression and for the intercept. Predicting for
new samples takes five steps:

1. select the events, genes and samples the inputs have in common, and the
   coefficient rows for them;
2. optionally transform the expression table (counts to TPM, or log2(x + 1));
3. standardise PSI and expression rows against reference-cohort statistics;
4. evaluate the K linear predictions for each sample and reduce them to
   mean, median, spread and quartiles;
5. stack the per-pair results into five tables.

The max-harm score then weights how far an event's PSI can move against
the cell by its dependency. The training-data loader applies the same
kind of key alignment and row standardisation to the fitting inputs.

The model is written over exact reals and unbounded integers. Tables are
dense label-indexed maps (`Tables.Table`), and coefficient tables are
sequences of keyed rows. Every pandas `KeyError` or numpy shape error on
these paths becomes an `Err` carrying a `Tables.Fault`.

Modules, in dependency order:

| file | module | models |
|---|---|---|
| basics.dfy | Basics | `Option`, `Result`, order-preserving filtering |
| tables.dfy | Tables | dense tables, `.loc` selection, the fault kinds |
| order_stats.dfy | OrderStats | sum, mean, variances, sorting, numpy's linear quantile and median |
| alignment.dfy | Alignment | the selection step of `_preprocess` |
| standardize.dfy | Standardization | the expression transform and reference standardisation of `_preprocess` |
| ensemble.dfy | Ensemble | `compute_single_splicing_dependency` |
| dispatch.dfy | Dispatch | `compute_splicing_dependency` and `predict` |
| max_harm.dfy | MaxHarm | `compute_max_harm_score` |
| training_data.dfy | TrainingData | `FitFromFiles.load_data` after the files are read |

Three behaviours come out of the proofs:

- A PSI row in `load_data` is kept when it has two present values over all PSI columns and non-zero variance. It is standardised only over the samples all three tables share. A kept row can therefore turn entirely non-finite. `TrainingData.FilterBeforeSubset` exhibits such a row, and `TrainingData.LoadedPsiCells` states exactly when a cell stays finite.
- Whenever the event and gene labels of every coefficient row survive selection, no per-pair job raises a missing-label error. `Dispatch.NoMissingLabels` proves this, and `Alignment.Select` guarantees the condition. `predict` can still fail in two ways. Preprocessing can name kept keys whose reference statistics are absent (`MissingReference`) or have a zero std (`DegenerateReference`). A pair can lack a coefficient row (`MissingCoefficient`), have mismatched sample or draw counts (`ShapeMismatch`), or have no draws at all (`EmptyEnsemble`).
- The ensemble mean of a sample equals the prediction made with the mean coefficients (`Ensemble.MeanIsMeanModel`).

## Model

| member | source | states |
|---|---|---|
| Tables.Restrict | target_spotter/SplicingDependency.py:104-105 | `.loc[keys, cols]` with present labels: the result is dense with exactly the requested row labels and columns, and each cell equals the input cell with the same labels |
| Tables.RestrictIdempotent | target_spotter/SplicingDependency.py:104-105 | selecting the same labels a second time changes nothing |
| Tables.Loc | target_spotter/SplicingDependency.py:252-255 | `.loc` succeeds iff every requested row and column label is present, then behaves as `Restrict`; otherwise it raises with exactly the absent labels |
| Tables.RowValues | target_spotter/utils.py:45-46 | `.values` of a row is the row's cells listed in column order, one per column |
| Alignment.CommonEvents | target_spotter/SplicingDependency.py:83-85 | an event is common iff it has a PSI row and some event-coefficient row pairs it with a gene that has an expression row |
| Alignment.CommonGenes | target_spotter/SplicingDependency.py:86-88 | a gene is common iff it has an expression row and some event-coefficient row pairs it with an event that has a PSI row |
| Alignment.CommonSamples | target_spotter/SplicingDependency.py:90 | the common samples are exactly the samples in both tables, with no duplicates and in PSI column order |
| Alignment.SelectCoefs | target_spotter/SplicingDependency.py:92-103 | the kept coefficient rows, in their original order, are exactly those whose event and gene are both common |
| Alignment.SelectCoefsCount | target_spotter/SplicingDependency.py:92-103 | a row whose event and gene are both common is kept as often as it occurs in the input, and any other row is dropped entirely |
| Alignment.Select | target_spotter/SplicingDependency.py:77-105 | both tables keep the common keys and share the common samples, with cells unchanged. All three coefficient tables keep exactly the rows whose labels survive. Every kept coefficient row finds its PSI row and its expression row |
| Alignment.EventCoefKeptIff | target_spotter/SplicingDependency.py:79-103 | an event-coefficient row survives iff its event has a PSI row and its gene has an expression row in the input tables |
| Alignment.CommonSetsStable | target_spotter/SplicingDependency.py:83-103 | recomputing the common sets from the kept rows gives the same sets, since each common key is witnessed by a kept row |
| Alignment.SelectIdempotent | target_spotter/SplicingDependency.py:77-105 | running the selection on its own output returns that output unchanged |
| Standardization.ChooseTransform | target_spotter/SplicingDependency.py:108-113 | counts-to-TPM iff `normalize_counts`; log2(x + 1) iff only `log_transform`; no transform iff neither |
| Standardization.ApplyTransform | target_spotter/SplicingDependency.py:108-113 | the transform keeps the table's shape and labels. Without a transform the table is returned as is; otherwise each cell becomes log2p1 of the input cell, or the TPM value the converter gives for that cell of the whole table |
| Standardization.StandardizeRoundTrip | target_spotter/SplicingDependency.py:123 | with a non-zero std, z-scoring and un-z-scoring are inverse to each other in both orders |
| Standardization.StandardizeRows | target_spotter/SplicingDependency.py:137 | every standardised cell un-z-scores with its row's statistics back to the input cell; the shape is unchanged |
| Standardization.EventStatsOf | target_spotter/SplicingDependency.py:117-122 | the PSI statistics of an event are absent iff no reference row carries the event; otherwise they come from a reference row that carries it |
| Standardization.GeneStatsOf | target_spotter/SplicingDependency.py:125-136 | the expression statistics of a gene are absent iff no reference row carries the gene; otherwise they come from a reference row that carries it |
| Standardization.KeyedLookup | target_spotter/SplicingDependency.py:125-136 | when the reference has one set of statistics per key, the lookup agrees with every reference row of that key |
| Standardization.UsableIffNoBadKeys | target_spotter/SplicingDependency.py:117-137 | the reference is usable iff no kept event or gene lacks statistics or has a zero std |
| Standardization.StandardizeSelection | target_spotter/SplicingDependency.py:115-137 | every PSI cell and every transformed expression cell un-z-scores, with its own key's reference statistics, to the selected value; the coefficient tables are untouched |
| Standardization.Preprocess | target_spotter/SplicingDependency.py:68-144 | succeeds iff the reference is usable for every kept key. Then it has the selection's keys, samples and coefficient rows, and each cell un-z-scores to the input PSI cell or to the transformed expression cell. On failure it names a non-empty set of kept keys: all of them lack statistics (`MissingReference`), or all of them have a zero std (`DegenerateReference`) |
| Standardization.PreprocessMatchesEveryReferenceRow | target_spotter/SplicingDependency.py:117-137 | with one set of statistics per key, each standardised cell is the z-score of its input cell against any reference row of its key |
| OrderStats.Mean | target_spotter/utils.py:52 | the number of values times the mean is their sum |
| OrderStats.MeanBounds | target_spotter/utils.py:52 | the mean of a non-empty vector lies between its minimum and its maximum |
| OrderStats.PopVariance | target_spotter/utils.py:54 | the population variance (the square of `numpy.std` with its default ddof 0) is never negative |
| OrderStats.SampleVariance | target_spotter/SplicingDependency.py:233 | the one-degree-of-freedom variance behind pandas' `std` is never negative |
| OrderStats.VarianceZeroIffConstant | target_spotter/SplicingDependency.py:233 | the sample variance is zero iff all the values are equal |
| OrderStats.SumSqZero | target_spotter/SplicingDependency.py:233 | squared deviations from a centre that sum to zero leave every value at that centre |
| OrderStats.Sort | target_spotter/utils.py:53-56 | sorting returns an ascending permutation of its input |
| OrderStats.SortEnds | target_spotter/utils.py:55-56 | the first order statistic is the minimum and the last is the maximum |
| OrderStats.SortSorted | target_spotter/utils.py:53-56 | sorting an ascending vector returns it unchanged |
| OrderStats.Quantile | target_spotter/utils.py:55-56 | the linear quantile lies between the minimum and the maximum; level 0 gives the minimum and level 1 the maximum |
| OrderStats.QuantileMonotone | target_spotter/utils.py:55-56 | a higher level never gives a smaller linear quantile |
| OrderStats.Median | target_spotter/utils.py:53 | numpy's median lies between the minimum and the maximum, and for an odd count it is one of the values |
| OrderStats.MedianIsHalfQuantile | target_spotter/utils.py:53-55 | numpy's median equals the linear quantile at level one half, for odd and even lengths |
| OrderStats.QuartilesOrdered | target_spotter/utils.py:53-56 | minimum ≤ q25 ≤ median ≤ q75 ≤ maximum |
| OrderStats.ConstantSummary | target_spotter/utils.py:52-56 | a constant vector has that constant as its mean, median and quartiles, and variance zero |
| Ensemble.Predictions | target_spotter/utils.py:49 | draw k predicts intercept_k + event_k · PSI + gene_k · TPM, one prediction per draw |
| Ensemble.PredictionMatrix | target_spotter/utils.py:45-49 | broadcasting the K-long coefficient columns against the S-long rows gives a K × S matrix whose (k, j) entry is draw k's prediction for sample j |
| Ensemble.Column | target_spotter/utils.py:52-56 | reducing along axis 0 sees, for sample j, the j-th entry of every row |
| Ensemble.Summarize | target_spotter/utils.py:52-56 | the summaries of one sample are ordered (min ≤ q25 ≤ median ≤ q75 ≤ max), its mean lies within the predictions' range and its variance is not negative |
| Ensemble.EvaluatePair | target_spotter/utils.py:38-60 | succeeds iff the shapes agree and there is at least one draw, and otherwise names the pair in a shape or empty-ensemble error. It keeps the event and sample labels and gives one ordered summary per sample |
| Ensemble.EvaluatePairColumns | target_spotter/utils.py:49-56 | each summary of sample j is numpy's mean, median, std squared, or linear quantile of column j of the prediction matrix |
| Ensemble.SumPredictions | target_spotter/utils.py:49-52 | summing the predictions over the draws equals the summed intercepts plus the summed event coefficients times PSI plus the summed gene coefficients times TPM |
| Ensemble.MeanIsMeanModel | target_spotter/utils.py:49-52 | the ensemble mean is the prediction of the mean coefficients |
| Ensemble.ConstantDraws | target_spotter/utils.py:49-56 | identical draws give their single prediction as mean, median and quartiles, with no spread |
| Ensemble.WorkedExample | target_spotter/utils.py:38-60 | event coefficients 1, 2, 3 at PSI 0.5 give mean 1, median 1, quartiles 0.75 and 1.25 and variance 1/6 |
| Dispatch.LookupDraws | target_spotter/utils.py:78-80 | `.loc[(event, gene)]` finds nothing iff no row has the key; otherwise it returns the draws of the first row with that key |
| Dispatch.RunPair | target_spotter/utils.py:76-85 | one job succeeds iff all three lookups find the key, both labels have rows, the sample counts agree and all three draw vectors have the same non-zero length. Errors follow argument order: coefficient, then event, then gene, then shape. Each sample's summaries are ordered within the range of the predictions built from the positional PSI and expression values |
| Dispatch.Collect | target_spotter/utils.py:76-85 | gathering fails iff some job fails, and then with the first failure in job order; otherwise result i is job i's value |
| Dispatch.Jobs | target_spotter/utils.py:74-85 | one job per event-coefficient row, in row order, for that row's (event, gene) key |
| Dispatch.Assemble | target_spotter/utils.py:86-98 | row i of each of the five tables is pair i's summary, labelled with its event, and the columns are the pairs' samples |
| Dispatch.ComputeSplicingDependency | target_spotter/utils.py:63-100 | succeeds iff every job does. Then there is one row per event-coefficient row, in order, with that pair's event (which has a PSI row) and summaries, and the columns are the PSI table's samples. On failure the error is that of the first failing pair in row order, and every earlier pair evaluates |
| Dispatch.FirstJobFailure | target_spotter/utils.py:76-85 | a failed collection of the jobs reports the error of the first failing pair in row order |
| Dispatch.AssembledRows | target_spotter/utils.py:86-90 | when job i yields summary i for every i, row i of each assembled table is pair i's summary, labelled with its event, and the columns are the PSI table's samples |
| Dispatch.Deliver | target_spotter/utils.py:76-85 | the stored job indices are exactly the delivered ones, and each stored outcome was delivered with its index |
| Dispatch.Gather | target_spotter/utils.py:76-85 | reading n results back gives n outcomes, the i-th being the one stored at index i |
| Dispatch.CompletionOrderIrrelevant | target_spotter/utils.py:76-90 | whatever order the parallel jobs finish in, storing results by job index and reading them back gives the outcomes in job order |
| Dispatch.JobsCompletionOrderIrrelevant | target_spotter/utils.py:76-85 | for the jobs of one call, any completion order gathers back to the jobs in row order, and collecting them gives the same result as collecting the jobs in order |
| Dispatch.Predict | target_spotter/SplicingDependency.py:146-191 | a preprocessing failure is returned as is. `predict` never fails on a missing label. On success there is one row per kept event-coefficient row, labelled with its event, which has a row in the selected PSI table |
| Dispatch.PredictByPairs | target_spotter/SplicingDependency.py:146-191 | `predict` succeeds iff preprocessing succeeds and every pair of the preprocessed selection evaluates. Then row i of each table is the summary of pair i of that selection, and the columns are the selected samples. When preprocessing succeeds and `predict` fails, the error is that of the first failing pair of that selection, in row order |
| Dispatch.NoMissingLabels | target_spotter/SplicingDependency.py:177-188 | when every coefficient row's event and gene have rows, the computation cannot fail with a missing-label error |
| Dispatch.PresentLabelsNotMissing | target_spotter/utils.py:76-85 | a job whose event and gene have rows can fail only for a missing coefficient row or a shape problem |
| Dispatch.ComputeSucceeds | target_spotter/utils.py:63-100 | the computation succeeds when every pair's labels and coefficient keys are present, the sample counts agree and the draw counts are equal and positive |
| MaxHarm.FinalPsi | target_spotter/utils.py:119-121 | the final PSI is 0 or 100, and it is 100 exactly for a positive dependency |
| MaxHarm.HarmScore | target_spotter/utils.py:122 | a zero dependency scores zero, and for PSI in [0, 100] the score is never positive |
| MaxHarm.HarmScoreMeaning | target_spotter/utils.py:104-122 | for PSI in [0, 100] the score is −\|dep\| times the distance from PSI to 0 (negative dep) or to 100 (positive dep). It is never positive, and it is zero iff dep is zero or PSI already sits at that end |
| MaxHarm.HarmScoreExamples | target_spotter/utils.py:104-109 | dependency −2 at PSI 30 scores −60, dependency 2 scores −140, dependency 0 scores 0 |
| MaxHarm.ComputeMaxHarm | target_spotter/utils.py:103-124 | the score table covers exactly the events and samples both inputs share, and each cell is the harm score of that event and sample |
| MaxHarm.MaxHarmNonPositive | target_spotter/utils.py:117-122 | with PSI values in [0, 100], no score is positive |
| MaxHarm.MaxHarmOnCommonKeys | target_spotter/utils.py:111-115 | restricting both inputs to their common events and samples first gives the same score table |
| TrainingData.PresentCols | target_spotter/SplicingDependency.py:232 | the present columns are exactly the given columns whose cell holds a value, kept in the given order |
| TrainingData.PresentIn | target_spotter/SplicingDependency.py:232 | one value per present column, in column order: value i is the cell of present column i; every present cell's value is among them |
| TrainingData.Detected | target_spotter/SplicingDependency.py:232 | `dropna(thresh=2)` keeps a row iff at least two of the given columns hold a value |
| TrainingData.Informative | target_spotter/SplicingDependency.py:232-233 | a row passes both filters iff it is detected and its present values are not all equal |
| TrainingData.KeepInformative | target_spotter/SplicingDependency.py:231-233 | a PSI row is kept iff it has at least two present values and their sample variance is non-zero, both judged over all PSI columns; kept rows are unchanged |
| TrainingData.GeneAnnot | target_spotter/SplicingDependency.py:229 | the annotation holds exactly the (ENSEMBL, GENE) pairs of mapping rows with both columns filled |
| TrainingData.TrainingSamples | target_spotter/SplicingDependency.py:236-240 | the common samples are exactly those in all three tables, with no duplicates and in PSI column order |
| TrainingData.TrainingGenes | target_spotter/SplicingDependency.py:242-244 | a gene is kept iff it has an expression row and an annotated name with a dependency row |
| TrainingData.TrainingEvents | target_spotter/SplicingDependency.py:246-248 | an event is kept iff it is a kept PSI row and some mapping row assigns it to a kept gene |
| TrainingData.NamesOf | target_spotter/SplicingDependency.py:253 | exactly the annotated names of the kept genes |
| TrainingData.OwnStats | target_spotter/SplicingDependency.py:261-262 | a row's own statistics exist iff it is informative over the given columns; the mean is the mean of its present values and the std is positive |
| TrainingData.StandardizeOwnRow | target_spotter/SplicingDependency.py:261-263 | a cell stays finite iff it was present and the row is informative; each finite cell un-z-scores with the row's own statistics to the raw value |
| TrainingData.StandardizeOwnRows | target_spotter/SplicingDependency.py:260-267 | the same for every row of a table over that table's columns, with labels and shape unchanged |
| TrainingData.RescaledMeanZero | target_spotter/SplicingDependency.py:261-263 | rescaling a row by the mean of its present values keeps their number and gives them mean zero |
| TrainingData.OwnRowMeanZero | target_spotter/SplicingDependency.py:261-263 | after standardising by its own statistics, an informative row has the same number of present values, and their mean is zero |
| TrainingData.FilterBeforeSubset | target_spotter/SplicingDependency.py:231-263 | a row informative over two samples is not informative over one of them, and standardising it over that one sample leaves no finite value |
| TrainingData.KeysOf | target_spotter/SplicingDependency.py:229-248 | the kept samples are duplicate-free and lie in all three tables' columns; the kept events are informative PSI rows and the kept genes have expression rows |
| TrainingData.KeysOfMeaning | target_spotter/SplicingDependency.py:229-248 | the kept samples, genes, events and dependency names, each characterised directly by the input tables and the mapping |
| TrainingData.Assemble | target_spotter/SplicingDependency.py:250-267 | the loaded PSI and expression tables are dense, have exactly the kept events and genes as rows and share the kept samples as columns; the dependency table is carried as given |
| TrainingData.LoadData | target_spotter/SplicingDependency.py:229-267 | succeeds iff every name the annotation gives a kept gene has a dependency row, and otherwise raises with exactly the absent names. On success the tables carry the kept events, genes and names and share the common samples |
| TrainingData.LoadedRowsInformative | target_spotter/SplicingDependency.py:231-233 | every loaded PSI row was detected and informative over all PSI columns |
| TrainingData.LoadedEventsHaveGenes | target_spotter/SplicingDependency.py:246-256 | every loaded event keeps a mapping row that assigns it to a loaded gene |
| TrainingData.LoadedMappingRestricted | target_spotter/SplicingDependency.py:256 | the loaded mapping keeps, in order, exactly the mapping rows whose event was loaded |
| TrainingData.LoadedDependencyUnchanged | target_spotter/SplicingDependency.py:252-255 | the loaded dependency cells equal the input cells |
| TrainingData.LoadedPsiCells | target_spotter/SplicingDependency.py:260-263 | a loaded PSI cell is finite iff the raw cell is present and the row is informative over the common samples; it then un-z-scores to the raw value |
| TrainingData.LoadedExprCells | target_spotter/SplicingDependency.py:265-267 | a loaded expression cell is finite iff its row is informative over the common samples; it then un-z-scores to the raw value |

## Left out

- Reading and writing files, default file locations, printing, `gc.collect`, and the `fit`/`fit_models` training that produces the coefficient tables. The model takes tables as values.
- `count_to_tpm` is a parameter `toTpm` of `Standardization.ApplyTransform`, and `log2(x + 1)` is a parameter `log2p1`. They rely on gene-length files and floating-point logarithms.
- Dispatch.ComputeSplicingDependency: the joblib worker pool and the tqdm progress bar are modelled as a sequential map. `Dispatch.CompletionOrderIrrelevant` covers the out-of-order completion the pool hides, and `Dispatch.JobsCompletionOrderIrrelevant` applies it to the jobs of one call.
- Floating point: all arithmetic is exact. NaN, ±inf and the NaN-propagation of pandas are not modelled, except that `load_data` marks a missing (NaN) input cell, and a cell that standardisation leaves without a finite value, as `None`. Infinite input values, which `dropna` counts as present, are not modelled.
- Ensemble.EvaluatePair: reports the population variance where the source reports `numpy.std`, its square root. Reals have no square root in the model.
- TrainingData.OwnStats: the standard deviation is `root` of the sample variance for a caller-supplied `root` that is only known to be positive on positive inputs, because the model has no square root.
- Dispatch.RunPair: any length mismatch is a `ShapeMismatch` error. The source is more lenient in two cases, where numpy broadcasting at target_spotter/utils.py:49 lets the job succeed: a coefficient vector holding a single draw alongside longer ones, and an expression row holding a single sample against a longer PSI row. A single-sample PSI row against a longer expression row fails in the source too, because the `pd.Series` at target_spotter/utils.py:52-56 then gets more values than sample labels.
- Ensemble.EvaluatePair: a pair with zero draws is an `EmptyEnsemble` error. numpy's mean and median of an empty axis give NaN with a warning, and the model does not follow which reduction fails first.
- Dispatch.LookupDraws: takes the first row with a given (EVENT, ENSEMBL) key. With duplicate keys, pandas returns every such row, and the reshape concatenates their draws. The model treats keys as unique.
- Standardization.Preprocess: the source pairs reference statistics with table rows by position. It reshapes the `.loc` result, taken in the reference table's order, into a column; for genes it first drops duplicated (ENSEMBL, value) rows. When that order differs from the table's row order, the source can standardise one key with another key's statistics. The model instead looks up each key's own statistics, from the first reference row that carries it. `Standardization.PreprocessMatchesEveryReferenceRow` only shows that, with one set of statistics per key, this lookup agrees with every reference row of that key; it does not show agreement with the positional pairing. Pandas' broadcast errors for repeated keys are not modelled.
- Standardization.Preprocess: a zero reference std is an error (`DegenerateReference`). The source silently divides by zero and yields ±inf or NaN.
- Python sets have no fixed order, but the source selects both tables with the same set. The model fixes that order to the PSI column order (`Alignment.CommonSamples`, `TrainingData.TrainingSamples`). The source passes these sets directly to `.loc` (target_spotter/SplicingDependency.py:104-105 and 250-255). The model follows older pandas, which accepts a set indexer; newer pandas rejects one with a `TypeError`.
- A coefficient row without its key in the other coefficient tables makes the source raise. The model follows that code (`MissingCoefficient`), not a reading in which such rows are skipped.
- Dispatch.Predict: returns all five tables; the source's `predict` returns only the median table and keeps the others on the object.
- Dispatch.Predict: its own contract does not say which pair's error a failed prediction reports. `Dispatch.PredictByPairs` states it for every input: after a successful preprocessing step, the error is the first failing pair's. It is kept out of `Predict`'s contract because, combined with the preprocessing contract, it makes that contract too expensive to check.
- MaxHarm.ComputeMaxHarm: a NaN dependency is left as NaN by the source's sign masks; the model has no NaN.
- TrainingData.LoadData: the expression table is taken to have no missing values, and cells of the gene-dependency table are copied without inspection.
- `utils.load_examples`, `defaults` and the module-level constants are file plumbing and are not modelled.
