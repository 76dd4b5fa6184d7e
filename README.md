# LightAutoML time-budgeted search, modelled in Dafny

This project models three parts of LightAutoML.

- **The regularization-path search of `LinearL1CD`** (`fit_predict_single_fold`), with its dispatch helpers
  `_infer_params`, `init_params_on_input` and `_predict_w_model_type`.
  The search walks the L1 ratios in descending order.
  For each ratio it walks the grid of penalty strengths `cs` with warm starts, starting from a fresh copy of the template estimator.
  It skips fits whose coefficients are all (close to) zero, except at the last `c`, where it warns and scores them.
  It keeps the best cell of each ratio and the best ratio, both with a non-strict `>=`.
  A ratio's walk stops on patience (`early_stopping`), on the timer, or once every coefficient is nonzero.
- **The budget bookkeeping of `OptunaTuner`**: the constructor, `_upd_timeout` and `fit`.
  `fit` clamps the timeout, runs the study whose objective fits a deep copy of the algorithm per trial, and uses the
  `update_trial_time` callback to re-estimate after each trial how many trials fit into the timeout.
  It then decides what to return: the refitted algorithm with its predictions, or `(None, None)`.
- **The dataset helpers** `roles_parser`, `get_common_concat` and `concatenate`.

The numeric collaborators are inputs of the model:

- the solver's fit, `predict`, `predict_proba` and the metric are the functions of `LinearL1CD.Oracles`;
- `time_limit_exceeded` is a function from the number of timer queries made so far to the answer;
- Optuna's sampler, the trial objective, the trial durations and a possible `OptunaError` are the functions of `OptunaTuning.Optimizer`;
- each dataset's class and each class's `concat` are function parameters.

`-np.inf` is `None` in an `Option`.
`np.allclose(coef, 0)` is its own definition: every coefficient within `1e-8` of zero.

Every operation that loops or updates state is a method or a class.
Each such method is proved equal to a reference function, and the properties are lemmas about that function:

- `FitPredictSingleFold` and `WalkRatio` are proved equal to `FitPredict` and `Walk`;
- `OptunaTuner.Fit` is proved equal to `FitSpec`, which uses `Optimize` for the study;
- `RolesParser` is proved equal to `Parsed`.

Files:

- `results.dfy`: `Option` and `Result`.
- `linear_l1cd.dfy`: module `LinearL1CD`, the search and its helpers.
- `linear_l1cd_props.dfy`: module `LinearL1CDProps`.
  It describes the trace of grid cells that a search leaves (`Cell`, `CellOk`, `TraceOk`), and proves the search's properties over that trace.
- `optuna_tuner.dfy`: module `OptunaTuning`, the class `OptunaTuner`.
- `optuna_tuner_props.dfy`: module `OptunaTuningProps`, the properties of a study and of `fit`.
- `dataset_utils.dfy`: module `DatasetUtils`.

Three behaviours of the code are easy to misread, and the model states them as the code has them:

- **Trial re-estimation.** The callback's estimate divides the *whole* `timeout`, not the time remaining, by the mean trial duration.
  It only reaches the sampler: the objective reads it once, before optimisation starts (`OptimizeFacts`).
  The study stops on `n_trials`, on the timeout or on an `OptunaError`, never on the estimate.
- **Holdout conversion.** When `fit_on_holdout` is set and the iterator is not a holdout iterator, `fit` converts the iterator itself,
  tunes and refits on the converted one, and then returns `(None, None)`.
- **Elastic-net classification.** For a classification task whose ratios are not `(1,)`, `_infer_params` builds a
  `LogisticRegression(penalty='elasticnet')` without an `l1_ratio`. The search sets `l1_ratio` on the old model and then replaces
  that model by a fresh copy of the template (linear_sklearn.py:187-191), so the estimator that is fitted still has no `l1_ratio`.
  scikit-learn refuses to fit such an estimator with a `ValueError`, which the model records as `FitRefused`
  (`ElasticNetClassificationRaises`). That is the only way a regression or multiclass search can fail, and it fails that way
  whenever it has a cell to fit. A binary search can also fail with the `IndexError` of `predict_proba(...)[:, 1]`. Degenerate
  fits never raise (`SearchErrors`, `SearchSucceedsIff`).

## Model

| member | source | states |
|---|---|---|
| LinearL1CD.InferParams | lightautoml/ml_algo/linear_sklearn.py:107-131 | binary/multiclass give LogisticRegression with penalty `l1` iff the ratios are exactly `(1,)`, else `elasticnet`, keeping the solver; `reg` gives Lasso iff `(1,)`, else ElasticNet, without a solver; both are warm-started and unfitted with the grid, ratios and patience passed through; any other task raises `AttributeError` |
| LinearL1CD.AlphaGrid | lightautoml/ml_algo/linear_sklearn.py:141 | same length as the `C` grid, and each `alpha` times `2C` is 1 |
| LinearL1CD.InitParamsOnInput | lightautoml/ml_algo/linear_sklearn.py:133-143 | a missing scikit-learn loss fails the assertion; other tasks keep the defaults unchanged; `reg` replaces only `cs`, by `1/(2c)` element-wise and of the same length, and raises `ZeroDivisionError` exactly when some `c` is 0 |
| LinearL1CD.PredictWModelType | lightautoml/ml_algo/linear_sklearn.py:145-159 | binary takes column 1 of `predict_proba` (`IndexError` if a row has fewer than two columns); `reg` uses `predict`; multiclass uses the whole `predict_proba` matrix; any other task raises `ValueError` |
| LinearL1CD.SortDescendingSorted | lightautoml/ml_algo/linear_sklearn.py:184 | the insertion sort that stands for `sorted(l1_ratios, reverse=True)` gives a non-increasing permutation (same multiset, same length) of the ratios |
| LinearL1CD.WalkRatio | lightautoml/ml_algo/linear_sklearn.py:193-239 | the inner loop over `cs` (the `ValueError` of a refused fit, skip, score, update of the ratio's best with `>=`, patience, timer and all-nonzero stops) computes exactly `Walk` |
| LinearL1CD.FitPredictSingleFold | lightautoml/ml_algo/linear_sklearn.py:161-252 | the nested loops compute exactly `FitPredict`, including setting `l1_ratio` on the old model and then replacing that model by a fresh copy, and the timer check after each ratio |
| LinearL1CDProps.WalkOk | lightautoml/ml_algo/linear_sklearn.py:198-239 | a ratio's walk appends only well-formed cells and leaves as the ratio's best the last cell that reaches the maximal score |
| LinearL1CDProps.SearchOk | lightautoml/ml_algo/linear_sklearn.py:184-248 | the outer loop keeps the trace well-formed with at most `|cs|` cells per ratio; walk `j` is over the `j`-th sorted ratio; each walk ends on one of the inner loop's stops and the search ends after the last ratio or on a timer query that answered yes; the global best is the last maximal cell over all ratios |
| LinearL1CDProps.InnerStopRule | lightautoml/ml_algo/linear_sklearn.py:198-239 | cell `k` is followed by the next `c` of the same ratio iff a `c` is left and the cell was skipped, or was scored with `es < early_stopping`, a timer query that answered no and some zero coefficient; a skipped cell is always followed by the next `c` and makes no timer query, a scored cell with patience left makes exactly one |
| LinearL1CDProps.OuterStopRule | lightautoml/ml_algo/linear_sklearn.py:184-248 | the last cell of a walk ended it for one of the inner loop's reasons (last `c`, patience, timer, all coefficients nonzero); another walk follows iff a ratio is left and the timer query after the walk answered no |
| LinearL1CDProps.NextRatioWalk | lightautoml/ml_algo/linear_sklearn.py:184-248 | a walk that follows another is the next round, so (with `RoundsFollowSortedRatios`) it is over the next sorted ratio, and its first cell comes exactly one timer query after the query that ended the previous walk |
| LinearL1CDProps.RoundsFollowSortedRatios | lightautoml/ml_algo/linear_sklearn.py:184-198 | the cells of walk `j` carry the `j`-th ratio of `sorted(l1_ratios, reverse=True)`; the first cell is the first `c` of the first ratio, before any timer query; some cell is fitted iff both `l1_ratios` and `cs` are non-empty |
| LinearL1CDProps.ElasticNetClassificationRaises | lightautoml/ml_algo/linear_sklearn.py:114-205 | a classification search with ratios other than `(1,)` and a non-empty grid raises `ValueError` at its first fit, because the fitted `elasticnet` estimator never has an `l1_ratio` |
| LinearL1CDProps.FitPredictViaSearch | lightautoml/ml_algo/linear_sklearn.py:161-252 | for a supported task the method fails exactly when its search over the sorted ratios fails, with the search's error; the search uses the given grid, all the ratios, and a template that scikit-learn refuses exactly for classification with ratios other than `(1,)` |
| LinearL1CDProps.SearchErrors | lightautoml/ml_algo/linear_sklearn.py:107-239 | an unsupported task raises `AttributeError`; any other raise is either the `ValueError` of a classification search with ratios other than `(1,)` and both lists non-empty, or the `IndexError` of a binary search's `predict_proba(...)[:, 1]` |
| LinearL1CDProps.SearchSucceedsIff | lightautoml/ml_algo/linear_sklearn.py:145-248 | a `reg` search always completes, even when every fit is degenerate; a multiclass search completes iff it has no elastic-net cell to fit (ratios `(1,)` or an empty list); a binary search whose probability rows all have a column 1 completes under the same condition |
| LinearL1CDProps.DefaultsUsable | lightautoml/ml_algo/linear_sklearn.py:95-143 | with a scikit-learn loss the defaults pass `init_params_on_input` for every supported task, keep all eleven grid points, turn the increasing `C` grid into a decreasing `alpha` grid for `reg`, and make `_infer_params` build a pure-L1 model |
| LinearL1CDProps.FitPredictOk | lightautoml/ml_algo/linear_sklearn.py:161-252 | every cell of a completed search is well-formed; there are at most `|l1_ratios|·|cs|` cells; every ratio comes from the grid, in non-increasing order; no model is returned iff no prediction is returned iff no cell was scored; a returned model is the best cell |
| LinearL1CDProps.FitCountBound | lightautoml/ml_algo/linear_sklearn.py:184-205 | at most `|l1_ratios|·|cs|` fits; within a ratio the strengths are tried in list order, each once, none skipped |
| LinearL1CDProps.RatiosVisitedDescending | lightautoml/ml_algo/linear_sklearn.py:184 | ratios are visited in non-increasing order, and only ratios of the grid are visited |
| LinearL1CDProps.WarmStartWithinRatio | lightautoml/ml_algo/linear_sklearn.py:191-205 | the first `c` of every ratio is fitted from the unfitted template; every later `c` is fitted from the previous fit of the same ratio, with only the strength changed |
| LinearL1CDProps.InputFromBase | lightautoml/ml_algo/linear_sklearn.py:186-205 | every estimator fitted in a walk is the template with only its strength and coefficients changed |
| LinearL1CDProps.L1RatioNeverApplied | lightautoml/ml_algo/linear_sklearn.py:186-191 | the `l1_ratio` set at line 187 never reaches a fitted or returned estimator: every fitted estimator keeps the template's unset `l1_ratio` and family |
| LinearL1CDProps.DegenerateCellsSkipped | lightautoml/ml_algo/linear_sklearn.py:207-217 | a fit with all coefficients near zero is left unscored iff it is not at the last `c`; at the last `c` it is warned about and still scored; every other fit is scored by the metric on its prediction |
| LinearL1CDProps.BestIsLastMaximum | lightautoml/ml_algo/linear_sklearn.py:219-244 | the returned model is a scored cell's model, with that model's prediction; its score is at least every scored cell's, and every later scored cell is strictly worse (ties go to the later cell) |
| LinearL1CDProps.PatienceCounter | lightautoml/ml_algo/linear_sklearn.py:220-239 | for every cell, `es` is reset to 0 when a score is at least every earlier score of its ratio, otherwise incremented by exactly 1, and left unchanged by a skipped cell; after a scored cell the walk goes on only while `es < early_stopping`, the timer query answered no and some coefficient is zero; `0 <= es <= max(early_stopping, 0)` |
| LinearL1CDProps.AlphaGridRoundTrip | lightautoml/ml_algo/linear_sklearn.py:141 | converting a grid of nonzero `C`s to `alpha = 1/(2C)` twice gives the grid back |
| LinearL1CDProps.AlphaGridReversesOrder | lightautoml/ml_algo/linear_sklearn.py:141 | on a positive grid, a larger `C` becomes a smaller `alpha` and conversely |
| OptunaTuning.Mean | lightautoml/ml_algo/tuning/optuna.py:155 | the mean trial duration is positive and times the number of trials gives the total duration |
| OptunaTuning.Estimate | lightautoml/ml_algo/tuning/optuna.py:156 | `min(n_trials, timeout // mean)` is at most `n_trials`, that many trials of mean length fit into the timeout, and one more does not unless the cap was hit |
| OptunaTuning.BestIndex | lightautoml/ml_algo/tuning/optuna.py:177 | the study's best trial is beaten by no trial, and strictly beats every earlier one (the earliest optimal trial), for either direction |
| OptunaTuning.Objective | lightautoml/ml_algo/tuning/optuna.py:45-74 | a trial records the values drawn by the sampler, fits a copy of the algorithm that differs from it only in its parameters, which are the dictionary built from those values, and reports that copy's score |
| OptunaTuning.OptunaTuner.constructor | lightautoml/ml_algo/tuning/optuna.py:90-110 | stores the timeout, trial count, direction, holdout flag and seed, and starts the estimate at `n_trials` |
| OptunaTuning.OptunaTuner.UpdTimeout | lightautoml/ml_algo/tuning/optuna.py:112-113 | the timeout becomes `min(timeout, t)`, so it never grows; nothing else changes |
| OptunaTuning.OptunaTuner.UpdateTrialTime | lightautoml/ml_algo/tuning/optuna.py:147-156 | the algorithm's mean trial time becomes the mean duration of the trials so far, and the estimate becomes `min(n_trials, timeout // mean)`; nothing else changes |
| OptunaTuning.OptunaTuner.Fit | lightautoml/ml_algo/tuning/optuna.py:115-188 | the new state and the result are exactly `FitSpec`: the fitted-algo assertion, the clamp, the study with its callback, the stored best parameters, and the outcome |
| OptunaTuningProps.OptimizeFrom | lightautoml/ml_algo/tuning/optuna.py:166-174 | each step of the study appends a trial that was allowed to start, and leaves the algorithm and the estimate that the callbacks describe |
| OptunaTuningProps.OptimizeFacts | lightautoml/ml_algo/tuning/optuna.py:146-174 | at most `n_trials` trials, each started before the timeout; every trial records the values sampled with the estimate read once before optimisation, and its copy gets the dictionary built from them with that estimate; every trial's copy carries the mean duration of the trials before it; the tuner's algo keeps its parameters; the final estimate is `min(n_trials, timeout // mean)` and at most `n_trials`; the study stops on `n_trials`, the timeout or an `OptunaError` |
| OptunaTuningProps.FitClampRule | lightautoml/ml_algo/tuning/optuna.py:131-137 | a fitted algo is refused and nothing changes; otherwise the timeout becomes `min(timeout, max(est, 1))`, so it never grows; `n_trials`, direction, holdout flag and seed are never changed; an unknown direction raises |
| OptunaTuningProps.FitOutcomeRule | lightautoml/ml_algo/tuning/optuna.py:141-188 | after the study: the tuner stores the study's trials and the last estimate; `(None, None)` iff an `OptunaError` stopped the study, or trials completed after a holdout conversion; with no completed trial it raises; otherwise the returned algo has the recorded sampled values of a trial no trial beats (not the dictionary that trial's copy was given), stored as the tuner's best parameters, with the predictions of its refit |
| OptunaTuningProps.FitKeepsEstimateBound | lightautoml/ml_algo/tuning/optuna.py:147-156 | `fit` keeps `estimated_n_trials <= n_trials` |
| OptunaTuningProps.FitReturnsTunedCopy | lightautoml/ml_algo/tuning/optuna.py:176-186 | the returned algo is the given one with the values the study recorded for its best trial, fitted, carrying the mean duration of all trials |
| OptunaTuningProps.DefaultBudget | lightautoml/ml_algo/tuning/optuna.py:90-174 | with the constructor's defaults, `fit` on an unfitted algo runs a study of at most 100 trials under a timeout of at most 1000 s, and leaves an estimate of at most 100 |
| DatasetUtils.Assign | lightautoml/dataset/utils.py:34-35 | after assigning a list of names, the keys are the old keys plus those names; those names map to the role, and every other key keeps its value |
| DatasetUtils.RolesParser | lightautoml/dataset/utils.py:13-37 | the loops compute exactly `Parsed`, the entries applied in iteration order |
| DatasetUtils.ParsedRoles | lightautoml/dataset/utils.py:25-37 | the keys are exactly the names mentioned (none for empty input); each name maps to the role of the last entry that mentions it |
| DatasetUtils.SingleNameNotSplit | lightautoml/dataset/utils.py:30-31 | a string value maps that whole name to the role; its single characters are not keys |
| DatasetUtils.NamesAllMapped | lightautoml/dataset/utils.py:33-35 | a sequence value maps exactly its names, each to the role |
| DatasetUtils.KindsFacts | lightautoml/dataset/utils.py:53-61 | the set of classes has one element iff all datasets share a class, and is `{NumpyDataset, CSRSparseDataset}` iff exactly those two classes occur |
| DatasetUtils.GetCommonConcat | lightautoml/dataset/utils.py:41-64 | succeeds iff all datasets share a class (giving that class) or exactly dense and sparse occur (giving sparse); the chosen `concat` accepts every dataset; anything else, including no datasets, raises `TypeError` |
| DatasetUtils.Concatenate | lightautoml/dataset/utils.py:68-81 | succeeds under the same condition, with the result of the `concat` of exactly the class `get_common_concat` chose (one that accepts every dataset), applied to the same datasets; otherwise the `TypeError` propagates |

## Left out

- The loss transforms `fw_func` and `bw_func` (linear_sklearn.py:173-174, 250). The model returns the best prediction without the back-transform, and the targets and weights are not modelled.
- Training and validation data. The fit, predict and metric functions stand for the solver run on that data.
- `LinearLBFGS` and `predict_single_fold`. They are outside the path search.
- The comparison `l1_ratios == (1,)` is on a Python tuple, so a list `[1]` does not equal it. The model compares sequences, `[1.0]`, and cannot tell a list from a tuple.
- Floating point:
  - scores, coefficients and durations are reals;
  - NaN and infinite values are not modelled;
  - `1/(2c)` is exact;
  - `-np.inf` is a sentinel that no metric value can equal.
- `print` and `warnings.warn`. The warning at the last `c` is the `warned` flag of a cell.
- Timer internals:
  - `time_limit_exceeded` is given as its answers by query number;
  - `estimate_tuner_time` is the parameter `estimatedTuningTime` of `Fit`, and the iterator length it depends on is not modelled.
- Optuna internals:
  - The sampler is `suggest(trial, estimate)`, the values it draws. `sample_params_values`, which builds the copy's dictionary from those values, is `configure(values, estimate)`; it belongs to each algorithm and is not modelled further.
  - The time `optimize` has spent is the sum of the trial durations; overhead between trials is not modelled.
  - `timeout=None` and `n_trials=None` are not modelled; both are numbers.
  - An `OptunaError` is raised only at a chosen trial. Errors from `create_study` or the storage are not modelled, and neither are exceptions other than `OptunaError` raised by the objective.
  - Pruned or failed trials are not modelled. Every trial that runs completes.
  - `plot` and `record_history` are not modelled.
- Trial durations are positive (`Duration`). A zero mean duration, which would raise `ZeroDivisionError` at optuna.py:156, is not modelled.
- The iterator. `fit` sees only whether the iterator is a `HoldoutIterator`. Its contents, `convert_to_holdout_iterator`, and the data the trials and the refit use are not modelled. The refit (`MLAlgo.fit_predict`) is recorded only as making the algorithm fitted and producing `fitPredict(algo)`.
- `deepcopy` and aliasing. Algorithms, estimators and predictions are values, so every copy is independent. The tuner's algo is a value updated by the callback, not a shared object.
- `roles_parser` tests `type(feat) is str`, so a `str` subclass would be iterated character by character. The model's `Features` tells a single name from a sequence of names only.
- `get_common_concat` compares exact classes. Classes other than the three named ones are `OtherDataset(name)`, and subclassing is not modelled.
- LinearL1CD.FitPredictSingleFold: of scikit-learn's checks at fit time only the missing `l1_ratio` of an `elasticnet` penalty is modelled (`FitRefused`); other solver and penalty incompatibilities, convergence warnings and invalid `tol` or `max_iter` values are not, and such a fit is assumed to succeed.
- LinearL1CD.InferParams: `_infer_params` passes every key left in the parameter dictionary to the estimator (`**params`, linear_sklearn.py:117-126). `Params` models only `tol`, `max_iter` and `solver`; other keys, and the `TypeError` an unknown key would raise, are not modelled.
- The direction string. Only `maximize` and `minimize` are accepted; any other string is `UnknownDirection`, and `fit` raises before the study runs.
