# FcstLabPro core, modelled in Dafny

FcstLabPro trains classifiers that predict bull and bear reversals of a
crypto-currency price series. It evaluates them by walk-forward backtesting,
combines a bull model and a bear model into a regime-gated ensemble, keeps a
JSON registry of experiments, and turns the latest probabilities into a
weekly trading signal. This project models the decision-making core of that
pipeline and proves properties about it:

- the walk-forward splitter and the backtest driver;
- the metrics, including the threshold optimizer;
- the classifier base class and the three name registries (models, feature
  sets, label strategies);
- the feature builder and the four label generators (reversal, directional
  with its return-sign variant, return rate, triple barrier);
- the configuration merge and the `key=value` overrides;
- the tracker's registry operations (update, filter and sort, delete,
  cleanup, archive, best experiment);
- the hard-switch ensemble combiner;
- the weekly signal and the weekly report's decision rules.

Each source file becomes one module. Pure computations are functions with
named results and lemmas. Loops become methods proved against a
prefix-recursive specification function. A "step" lemma relates one loop
iteration to that function, and an "error sticks" lemma covers early exits.
Objects that the source updates in place are classes:
- the classifier instance;
- the registries;
- the in-memory experiment registry.

Array writes such as the labels' tail blanking keep the `array`.

Python exceptions are `Err` values of a `Result` type. Each one names the
exception the source raises: `KeyError`, `ValueError`, `ZeroDivisionError`,
or the not-fitted error. Probabilities, prices and metrics are exact reals.
Python's `int()` on a float is written out as truncation toward zero.

## Model

| member | source | states |
|---|---|---|
| Splitter.WalkForwardSplit | src/data/splitter.py:46-73 | The loop returns exactly the folds of the split specification: training window `[0, init + k*step)`, test window of `oos` rows right after it, for as long as the test window fits; a ValueError when no fold fits |
| Splitter.ExpandingWindowSplit | src/data/splitter.py:76-86 | The expanding-window alias yields the same folds as the walk-forward split |
| Splitter.SplitFailsExactly | src/data/splitter.py:46-69 | The split fails exactly when `init >= n` or `init + oos > n`; otherwise it has at least one fold |
| Splitter.FoldBounds | src/data/splitter.py:50-66 | Fold k trains on rows `[0, init + k*step)` and tests on the `oos` rows that follow, all inside `[0, n)`, with fold id k |
| Splitter.NoLeakage | src/data/splitter.py:54-62 | Within a fold every training row precedes every test row |
| Splitter.FoldsStrictlyIncrease | src/data/splitter.py:50-66 | Later folds have strictly larger training ends and strictly later test starts |
| Splitter.ZeroWindowGivesEmptyTests | src/data/splitter.py:53-62 | With a zero test window every fold's test window is empty |
| Splitter.HundredSamplesExample | src/data/splitter.py:53-66 | Restates the documented example: 100 rows, initial 60, window 10, step 10 give exactly four folds with test windows [60,70), [70,80), [80,90), [90,100) |
| Splitter.NoFoldExample | src/data/splitter.py:53-69 | Restates the documented example: 100 rows with an initial window of 95 and a test window of 10 raise |
| Backtest.AddImportance | src/evaluation/backtest.py:101-106 | The first fold's importances start the sum; later ones add element-wise, a length-1 vector broadcasts, and any other length mismatch is a ValueError |
| Backtest.RunFold | src/evaluation/backtest.py:82-117 | One fold's result equals the fold-outcome specification; on success the model is a fresh one of the requested family holding the defaults merged with the given params, fitted, and holding exactly what training on this fold's training rows produced |
| Backtest.RunFoldLoop | src/evaluation/backtest.py:81-130 | The fold loop's outcome equals the fold-loop specification; on success the pooled true and predicted labels are the folds' test windows and predictions concatenated in fold order, and the last model is the one trained, with the merged params, on the final fold's training rows |
| Backtest.FoldOutcomeScored | src/evaluation/backtest.py:88-117 | Once fitting and prediction succeed, a fold's result carries its own train and test sizes, the test labels, the predictions and the metrics computed on them |
| Backtest.RunWalkForward | src/evaluation/backtest.py:74-136 | The driver's result equals the backtest specification (split, per-fold outcomes, pooled metrics); on success the split has at least one fold and the returned `last_model` is the one trained, with the merged params, on the last fold's training rows |
| Backtest.SplitInBounds | src/evaluation/backtest.py:74-85 | Every fold of the split slices inside the feature matrix and the label vector |
| Backtest.RunFoldsErrSticks | src/evaluation/backtest.py:81-99 | Once a fold fails, the loop's outcome is that failure whatever folds follow |
| Backtest.FoldOutcomeMeaning | src/evaluation/backtest.py:82-117 | An unknown model type is a KeyError; otherwise a fold fails exactly when training, prediction or its metrics fail; a successful fold records the test window's true labels, the model's predictions, their metrics and the importances, and lacks probabilities exactly when `predict_proba` fails |
| Backtest.RunFoldsMeaning | src/evaluation/backtest.py:81-120 | A successful loop keeps one result per fold, in order, each equal to that fold's outcome |
| Backtest.RunFoldsLength | src/evaluation/backtest.py:81-118 | A successful loop records exactly one result per fold |
| Backtest.RunFoldsAt | src/evaluation/backtest.py:81-118 | Result k of a successful loop is fold k's own outcome, whatever the other folds are |
| Backtest.RunFoldsLast | src/evaluation/backtest.py:81-118 | A successful loop over a non-empty fold list extends the loop over all but the last fold by that fold's outcome |
| Backtest.PooledIsWindows | src/evaluation/backtest.py:119-128 | The pooled true labels are the concatenated test windows, of total length folds × window |
| Backtest.BacktestFolds | src/evaluation/backtest.py:74-118 | A successful backtest used a registered model type and has one result per split fold (at least one): fold k has id k, trained on `init + k*step` rows, tested on the next `oos` labels |
| Backtest.BacktestPooled | src/evaluation/backtest.py:119-129 | The overall metrics are computed on the pooled truth and predictions, which have equal length |
| Backtest.BacktestFailures | src/evaluation/backtest.py:74-88 | A split that cannot fit a fold raises ValueError; an unknown model type raises KeyError |
| Metrics.Classes | src/evaluation/metrics.py:40-50 | The class list is strictly sorted and holds exactly the labels that occur in truth or prediction |
| Metrics.MetricValue | src/evaluation/metrics.py:40-50 | A known metric raises exactly when the lengths differ, or when a binary average (`f1_binary`, `precision_binary`, `recall_binary`) meets a target that is not binary |
| Metrics.MetricValueDispatch | src/evaluation/metrics.py:40-50 | Each name selects its sklearn score: accuracy; macro F1, precision and recall (zero division 0); support-weighted F1; binary F1, precision and recall on a binary target; Cohen's kappa |
| Metrics.MetricValueInUnit | src/evaluation/metrics.py:41-48 | Every metric but kappa that does not raise lies in [0, 1] |
| Metrics.Kappa | src/evaluation/metrics.py:49 | Kappa is 0 when undefined, that is on empty input or when the chance agreement (per class, predicted count times true count, over n²) is certain; elsewhere it is 1 − observed disagreement / chance disagreement, both from the counts |
| Metrics.ComputeMetrics | src/evaluation/metrics.py:52-62 | The loop returns exactly the metric map of the specification, stopping at the first failing metric |
| Metrics.MetricsErrSticks | src/evaluation/metrics.py:55-58 | Once a metric fails, later names do not change the outcome |
| Metrics.MetricsKeysAndValues | src/evaluation/metrics.py:55-60 | A successful map has exactly the requested known names as keys, each holding that metric's value; unknown names are skipped |
| Metrics.MetricsFailIff | src/evaluation/metrics.py:40-58 | Computation fails exactly when some requested, known metric fails (lengths differ, or a binary average meets a non-binary target); unknown names never fail |
| Metrics.DefaultComputesAllNine | src/evaluation/metrics.py:52-53 | Without a name list, all nine metrics are computed |
| Metrics.ZeroOneIsBinaryTarget | src/evaluation/metrics.py:44-48 | 0/1 labels always qualify for the binary averages |
| Metrics.ClassScoreInUnit | src/evaluation/metrics.py:42-48 | Each per-class precision, recall and F1 lies in [0, 1] |
| Metrics.ScoresInUnit | src/evaluation/metrics.py:41-48 | Accuracy and the macro and binary averages lie in [0, 1] |
| Metrics.NeverPositiveScoresZero | src/evaluation/metrics.py:44-48 | A prediction that never says 1 has binary precision, recall and F1 of 0 (the zero-division default) |
| Metrics.AccuracyOneIffEqual | src/evaluation/metrics.py:41 | On non-empty input the accuracy is 1 exactly when prediction equals truth |
| Metrics.ReportTargetNames | src/evaluation/metrics.py:71-76 | The report uses the two binary class names exactly when at most two distinct labels occur, and the three reversal class names otherwise |
| Metrics.ConfusionMatrix | src/evaluation/metrics.py:80-85 | The matrix is square over the sorted class list, and entry (i, j) counts the samples whose true label is class i and whose prediction is class j |
| Metrics.ConfusionMatrixTotal | src/evaluation/metrics.py:80-85 | The confusion matrix has one row per class and its entries add up to the number of samples |
| Metrics.SupportsSumToLength | src/evaluation/metrics.py:43 | The class supports add up to the number of samples |
| Metrics.PerfectKappa | src/evaluation/metrics.py:49 | A prediction equal to the truth has a kappa of 1, unless the kappa is undefined (0 in the model) |
| ThresholdOptimizer.PositiveColumn | src/evaluation/threshold_optimizer.py:56-58 | A 1-D probability array is used as is; a 2-D one gives its second column, and fails when some row has fewer than two columns |
| ThresholdOptimizer.Predict | src/evaluation/threshold_optimizer.py:67 | Each prediction is 1 exactly when its probability reaches the threshold, and 0 otherwise |
| ThresholdOptimizer.ApplyThreshold | src/evaluation/threshold_optimizer.py:110-130 | Succeeds exactly when the positive column exists, with one 0/1 label per probability, 1 iff the probability reaches the threshold |
| ThresholdOptimizer.PredictMonotone | src/evaluation/threshold_optimizer.py:128-130 | Raising the threshold never turns a 0 into a 1 |
| ThresholdOptimizer.DefaultGridShape | src/evaluation/threshold_optimizer.py:60-61 | The default grid has 60 strictly increasing thresholds from 0.20 to 0.79 |
| ThresholdOptimizer.YoudenBounds | src/evaluation/threshold_optimizer.py:83-91 | Youden's J lies in [-1, 1] |
| ThresholdOptimizer.YoudenScore | src/evaluation/threshold_optimizer.py:83-91 | Youden's J on the arrays succeeds exactly when their lengths are equal or one of them has a single element (numpy broadcasting); it is then within [-1, 1], and equals J on the counts for equal lengths |
| ThresholdOptimizer.MetricScoreFailsIff | src/evaluation/threshold_optimizer.py:79-98 | The objective raises exactly for an unknown name, for unequal lengths (except where Youden's arrays broadcast), and for a non-binary target under binary F1 or "precision_recall" |
| ThresholdOptimizer.PrecisionFloor | src/evaluation/threshold_optimizer.py:73-77 | With no positive floor every candidate passes; with one, the check raises exactly when the library's binary precision raises, and passes exactly when that precision reaches the floor |
| ThresholdOptimizer.Assess | src/evaluation/threshold_optimizer.py:67-98 | A threshold is skipped exactly when its predictions are all one class or their precision is below a positive floor; it raises exactly when it is not degenerate and the precision check raises, or when it qualifies and the objective raises; a score is the objective on its predictions |
| ThresholdOptimizer.OptimizeThreshold | src/evaluation/threshold_optimizer.py:29-107 | A missing positive column is returned as its error; otherwise the loop's result, including the first error a library call raises, is the scan of the given thresholds (the default grid when none) assessed on the positive column, for truth and probabilities of any lengths |
| ThresholdOptimizer.ScanErrSticks | src/evaluation/threshold_optimizer.py:97-98 | Once a threshold raises, later thresholds do not change the outcome |
| ThresholdOptimizer.ScanOutcome | src/evaluation/threshold_optimizer.py:63-102 | The scan fails exactly when some threshold raises; it returns 0.5 with score -inf exactly when every threshold is skipped, and a -inf score always comes with 0.5 |
| ThresholdOptimizer.BestIsEarliestMaximum | src/evaluation/threshold_optimizer.py:100-102 | A finite best score belongs to the chosen threshold, which scores at least as well as every scored threshold and strictly better than every earlier one |
| ThresholdOptimizer.AssessMeaning | src/evaluation/threshold_optimizer.py:69-98 | A threshold is scored exactly when it qualifies and its objective succeeds, and its score is that objective on its predictions |
| ThresholdOptimizer.ZeroOneTruthFailsOnlyOnUnknownMetric | src/evaluation/threshold_optimizer.py:66-98 | For 0/1 truth as long as the probabilities, the precision check never raises, and a qualifying threshold is scored if the metric is known and raises if it is not |
| ThresholdOptimizer.MismatchedLengthsRaise | src/evaluation/threshold_optimizer.py:67-98 | When truth and probabilities differ in length (truth not of length 1), every non-degenerate threshold raises |
| Classifier.MergedParams | src/models/lgbm.py:35-37 | A class's constructor parameters are the union of its defaults and the given parameters, the given value winning on a shared key |
| Classifier.BaseModel.constructor | src/models/base.py:13-16 | A new classifier keeps its family and parameters (empty when absent) and is not fitted |
| Classifier.BaseModel.Fit | src/models/base.py:18-21 | Training success stores the trained model and marks it fitted, returning the classifier itself; a training failure is returned and leaves it unchanged |
| Classifier.BaseModel.Predict | src/models/base.py:23-26 | Before fitting, an error; after, exactly the family's prediction from the trained model |
| Classifier.BaseModel.PredictProba | src/models/base.py:28-31 | Before fitting, an error; after, exactly the family's class probabilities |
| Classifier.BaseModel.FeatureImportance | src/models/base.py:33-36 | Before fitting, an error; after, the trained model's importances |
| Classifier.BaseModel.GetParams | src/models/base.py:38-40 | Returns a map equal to the parameters, key by key |
| Classifier.FitThenPredict | src/models/base.py:13-26 | Predicting before `fit` fails; after a successful `fit` the classifier predicts what its family predicts from the trained model; a failed `fit` leaves it unfitted |
| NameRegistry.Registry.constructor | src/models/registry.py:10 | A registry starts empty |
| NameRegistry.Registry.Register | src/models/registry.py:13-19 | Registering stores the value under the name (replacing an older one), lists a new name once at the end, and returns the value unchanged |
| NameRegistry.Registry.Get | src/models/registry.py:22-27 | Lookup succeeds exactly for registered names with the registered value; other names are a KeyError naming them |
| NameRegistry.Registry.List | src/models/registry.py:36-38 | The listing holds exactly the registered names, each once, in registration order |
| NameRegistry.RegisterThenGet | src/models/registry.py:13-27 | After registering, a lookup of that name returns the new value, other names keep their lookups, and the listing grows by one only for a new name |
| ModelRegistry.RegisterModel | src/models/registry.py:13-19 | The decorator stores the class under its name and returns it unchanged |
| ModelRegistry.GetModelClass | src/models/registry.py:22-27 | The registered class, or a KeyError for an unknown name |
| ModelRegistry.CreateModel | src/models/registry.py:30-33 | An unknown name is a KeyError; otherwise a fresh, unfitted instance of the registered class whose parameters are its defaults merged with the given ones |
| ModelRegistry.ListModels | src/models/registry.py:36-38 | Every registered model name, each once |
| ModelRegistry.LightGbmRegistration | tests/test_models.py:11-23 | After registration "lightgbm" is listed and creates an unfitted model holding the class's default parameters (the class defaults and their merge in the LightGBM model), a given parameter overrides its default, and "nonexistent" is a KeyError |
| FeatureRegistry.RegisterFeatureSet | src/features/registry.py:14-27 | The decorator stores the function under its name and returns it unchanged |
| FeatureRegistry.GetFeatureSet | src/features/registry.py:30-35 | The registered function, or a KeyError for an unknown name |
| FeatureRegistry.ListFeatureSets | src/features/registry.py:38-40 | Every registered set name, each once |
| FeatureRegistry.BuilderImportRegistersSets | tests/test_features.py:26-37 | Registering the builder's three sets lists "technical", "volume" and "flow" and nothing else, and "nonexistent" is a KeyError |
| LabelRegistry.RegisterLabelStrategy | src/labels/registry.py:13-19 | The decorator stores the strategy under its name and returns it unchanged |
| LabelRegistry.GetLabelStrategy | src/labels/registry.py:22-27 | The registered strategy, or a KeyError for an unknown name |
| LabelRegistry.ListLabelStrategies | src/labels/registry.py:30-32 | Every registered strategy name, each once |
| LabelRegistry.ReRegistrationReplaces | src/labels/registry.py:13-19 | Registering "reversal" twice keeps the second strategy and lists the name once |
| FeatureBuilder.FillRow | src/features/builder.py:52 | A missing cell takes the value above it; present cells stay |
| FeatureBuilder.CompleteRows | src/features/builder.py:52-54 | Dropping rows with missing cells keeps exactly the complete rows |
| FeatureBuilder.BuildFeatures | src/features/builder.py:38-62 | The loop's result equals the build specification: the requested sets applied in order, then the chosen missing-value treatment |
| FeatureBuilder.ApplySetsErrSticks | src/features/builder.py:41-43 | Once a set name is unknown, later sets do not change the outcome |
| FeatureBuilder.UnknownSetFails | src/features/builder.py:41-43 | Building fails exactly when some requested set is unregistered, with a KeyError naming the first one |
| FeatureBuilder.FilledStaysComplete | src/features/builder.py:51-52 | After forward-filling, every row below a complete row is complete |
| FeatureBuilder.DropsLeadingIncomplete | src/features/builder.py:51-54 | When completeness persists downwards, dropping incomplete rows removes exactly a leading block of them |
| FeatureBuilder.FFillThenDropDropsPrefix | src/features/builder.py:51-52 | Under "ffill_then_drop" on a rectangular frame, the rows removed are a leading block, and the kept rows are the filled rows from some index on |
| FeatureBuilder.FeatureColumns | src/features/builder.py:65-70 | No kept column's lower-cased name is a raw price, volume, label or date column, and no column is added |
| FeatureBuilder.FeatureColumnsMembers | src/features/builder.py:65-70 | A column is kept exactly when it is an input column whose lower-cased name is not excluded |
| FeatureBuilder.FeatureColumnsKeepOrder | src/features/builder.py:70 | Selecting from two concatenated column lists is the concatenation of the two selections, so order is kept |
| FeatureBuilder.RawColumnsRemoved | src/features/builder.py:67-70 | "Close" is excluded like "close", and "rsi_14" is kept |
| LabelSeries.FutureReturnPositiveIff | src/labels/directional.py:89-91 | The forward return is positive exactly when the later close is higher |
| LabelSeries.CountValid | src/labels/reversal.py:65-67 | The method counts exactly the defined labels |
| LabelSeries.CountDefinedZeroIff | src/labels/reversal.py:65-71 | No label is defined exactly when every row is missing |
| LabelSeries.BlankTail | src/labels/reversal.py:62 | The last T rows of the array become missing (every row when T is 0); the rest are unchanged |
| LabelSeries.BlankedMeaning | src/labels/reversal.py:61-62 | The rows that keep a label are exactly those with a full forward window, and some row keeps one exactly when 0 < T < n |
| ReversalLabels.WindowMax | src/labels/reversal.py:44 | The window maximum bounds every close in the window and is one of them |
| ReversalLabels.WindowMin | src/labels/reversal.py:45 | The window minimum is below every close in the window and is one of them |
| ReversalLabels.ReversalSeries | src/labels/reversal.py:41-62 | One label per row |
| ReversalLabels.GenerateReversalLabels | src/labels/reversal.py:41-73 | The generator's result equals the reversal specification: the masks written in order, the tail blanked, and ZeroDivisionError when no row is labelled |
| ReversalLabels.MarkFalls | src/labels/reversal.py:51-52 | After the first mask every row is 0 where the future minimum falls below the threshold and 1 elsewhere |
| ReversalLabels.MarkRises | src/labels/reversal.py:53 | After the second mask every row holds the raw reversal label, rises overriding falls |
| ReversalLabels.ReversalFailsIff | src/labels/reversal.py:62-71 | The generator raises exactly when T is 0 or at least the number of rows, and then with ZeroDivisionError |
| ReversalLabels.ReversalShape | src/labels/reversal.py:51-62 | A result has one entry per row; the last T are missing and the others are 0, 1 or 2 |
| ReversalLabels.ReversalRule | src/labels/reversal.py:47-53 | A labelled row is 2 when the window maximum rises by X, else 0 when the window minimum falls by X, else 1 |
| ReversalLabels.BothThresholdsGiveTwo | src/labels/reversal.py:52-59 | A row reaching both thresholds is labelled 2, since the rise mask is written last |
| ReversalLabels.RiseOnAnyDay | src/labels/reversal.py:44-53 | A rise of X on any day of the window makes the row 2 |
| ReversalLabels.FallOnAnyDay | src/labels/reversal.py:45-52 | A fall of X on any day of the window, without a rise, makes the row 0 |
| DirectionalLabels.DirectionalSeries | src/labels/directional.py:50-61 | One label per row |
| DirectionalLabels.GenerateDirectionalLabels | src/labels/directional.py:50-72 | The generator's result equals the directional specification, raising ZeroDivisionError when no row is labelled |
| DirectionalLabels.DirectionalFailsIff | src/labels/directional.py:61-70 | The generator raises exactly when T is 0 or at least the number of rows |
| DirectionalLabels.DirectionalRule | src/labels/directional.py:53-58 | A row is missing exactly when T is 0 or it lacks a full window; a labelled row is 0 exactly when its return is at most -X, 2 exactly when it reaches X without that, and 1 exactly when it lies strictly between |
| DirectionalLabels.DirectionalExclusive | src/labels/directional.py:52-58 | With a positive threshold no row is both up and down |
| DirectionalLabels.ReturnSignSeries | src/labels/directional.py:88-93 | One label per row |
| DirectionalLabels.GenerateReturnSignLabels | src/labels/directional.py:88-99 | The generator's result equals the return-sign series |
| DirectionalLabels.ReturnSignRule | src/labels/directional.py:89-92 | A labelled row is 1 exactly when the later close is higher, and 0 otherwise |
| DirectionalLabels.DirectionalAgreesWithSign | src/labels/directional.py:53-92 | A directional 2 (positive X) is a sign 1, and a directional 0 (X at least 0) is a sign 0 |
| ReturnRateLabels.ReturnRateSeries | src/labels/return_rate.py:35-43 | One value per row |
| ReturnRateLabels.GenerateReturnRateLabels | src/labels/return_rate.py:35-53 | The generator's result equals the return-rate series |
| ReturnRateLabels.ReturnRateValue | src/labels/return_rate.py:38 | A value is missing exactly when T is 0 or the row lacks a full window; a defined value is the percentage change over T rows |
| ReturnRateLabels.ReturnRateAgreesWithSign | src/labels/return_rate.py:38-43 | Where defined, the rate is positive exactly when the return-sign label is 1 |
| TripleBarrier.FirstTouch | src/labels/triple_barrier.py:107-116 | The scan's outcome is 0, 1 or 2 |
| TripleBarrier.FirstTouchMeaning | src/labels/triple_barrier.py:107-116 | 1 exactly when every day is quiet; otherwise the first touching day decides: stop-loss (0) if its low reaches the lower barrier, else take-profit (2) |
| TripleBarrier.TripleBarrierSeries | src/labels/triple_barrier.py:94-120 | One label per row |
| TripleBarrier.GenerateTripleBarrierLabels | src/labels/triple_barrier.py:94-139 | The nested loops' result equals the triple-barrier series |
| TripleBarrier.EntryLabel | src/labels/triple_barrier.py:96-118 | The label of one entry row equals that row's barrier label: no label when a threshold is missing, otherwise 0 when the stop-loss barrier is touched first, 2 when the take-profit barrier is, 1 when neither is touched within T bars |
| TripleBarrier.ScanWindow | src/labels/triple_barrier.py:107-116 | The forward scan returns the first bar touching a barrier, checking the lower barrier before the upper one, or none |
| TripleBarrier.FixedThresholds | src/labels/triple_barrier.py:90-92 | Fixed mode gives every row the same threshold |
| TripleBarrier.FixedModeRule | src/labels/triple_barrier.py:90-118 | In fixed mode every row with a full window is labelled by the first touch of `close*(1+X)` or `close*(1-X*sl_ratio)`; the tail is missing |
| TripleBarrier.TripleBarrierShape | src/labels/triple_barrier.py:94-118 | One entry per row; the last T and rows without thresholds are missing; the others are 0, 1 or 2 |
| TripleBarrier.SameDayTouchIsStopLoss | src/labels/triple_barrier.py:110-116 | A day touching both barriers after quiet days counts as a stop-loss |
| Config.DeepMerge | src/experiment/config.py:16-24 | The merge holds exactly the keys of either side; which value each key holds is stated by the two lemmas below |
| Config.DeepMergeOverrideLeafWins | src/experiment/config.py:19-23 | Every non-mapping value the override holds at some path is what the merge holds there |
| Config.DeepMergeKeepsBase | src/experiment/config.py:18-21 | A path the override does not reach keeps the base's value |
| Config.DeepMergeIdempotent | src/experiment/config.py:16-24 | Merging a configuration with itself gives it back |
| Config.DeepMergeEmpty | src/experiment/config.py:16-24 | An empty mapping is a left and right identity of the merge |
| Config.DeepMergeFlatExample | tests/test_experiment.py:14-18 | Restates the flat-merge test: `b` overridden, `a` and `c` kept |
| Config.DeepMergeNestedExample | tests/test_experiment.py:20-26 | Restates the nested-merge test: the override's leaf wins and sibling keys stay |
| Config.Infer | src/experiment/config.py:86-99 | An override value is an int if it parses as one, else a float, else a boolean for "true"/"false" in any case, else None for "null", else the string itself |
| Config.NotNumeric | src/experiment/config.py:88-93 | A token without spaces that starts with anything but a digit, a sign or a point is neither an int nor a float literal |
| Config.DecimalLiteral | src/experiment/config.py:88-93 | Digits, one point and digits is not an int literal and parses as the float whole + fraction / 10^(fraction length) |
| Config.InferFloat | src/experiment/config.py:88-93 | A value that fails as an int but parses as a float is inferred as that float |
| Config.InferIntExample | tests/test_experiment.py:37-41 | Restates the test: "21" becomes the integer 21 |
| Config.InferFloatExample | tests/test_experiment.py:43-46 | Restates the test: "0.12" becomes the float 0.12 |
| Config.InferBoolExample | tests/test_experiment.py:48-51 | Restates the test: "true" becomes True |
| Config.InferStringExample | tests/test_experiment.py:53-56 | Restates the test: "xgboost" stays a string |
| Config.SetAtPath | src/experiment/config.py:102-107 | The walk down a dotted path and the final assignment give exactly the path-setting specification |
| Config.ApplyOverrides | src/experiment/config.py:77-110 | The loop applies the items left to right, exactly as the override specification does |
| Config.ApplyItem | src/experiment/config.py:79-107 | One override item: without "=" the configuration is unchanged; otherwise the inferred value is set at the dotted path, as the one-item specification says |
| Config.OverridesErrSticks | src/experiment/config.py:78-107 | Once an item fails, later items do not change the outcome |
| Config.SetPathThenGet | src/experiment/config.py:102-107 | After a successful set, the path holds the new value |
| Config.SetPathFrame | src/experiment/config.py:102-107 | A set changes only the entry under the path's first key |
| Config.SetPathFailsIff | src/experiment/config.py:103-106 | A set fails exactly when some proper prefix of the path leads to a value that is not a mapping |
| Config.SetPathTwice | src/experiment/config.py:78-107 | Setting a path twice is the same as setting it once to the second value |
| Config.SetPathOkIff | src/experiment/config.py:102-107 | Whether a set succeeds does not depend on the value |
| Config.SetPathCreatesMissing | src/experiment/config.py:104-105 | Setting a path whose first key is absent creates the nested mappings down to the value |
| Config.CreateNestedExample | tests/test_experiment.py:58-61 | Restates the test: setting "a.b.c" in an empty configuration gives `{a: {b: {c: 42}}}` |
| Config.SkipsItemWithoutEquals | src/experiment/config.py:79-81 | An item without "=" changes nothing |
| Config.SplitsAtFirstEquals | src/experiment/config.py:83-84 | The key path is the stripped text before the first "=", split at dots; the value is everything after it |
| TrackerEntries.NewEntryDefaults | src/experiment/tracker.py:99-114 | A meta record without fields gives the defaults: unknown status, dirty, no metrics |
| TrackerEntries.FindId | src/experiment/tracker.py:117-120 | The position of the first entry with the id, or none when no entry has it |
| TrackerEntries.UpsertShape | src/experiment/tracker.py:117-122 | An update replaces the first entry with the same id in place, or appends when the id is new; nothing else changes |
| TrackerEntries.UpsertIdempotent | src/experiment/tracker.py:117-122 | Recording the same entry twice is the same as once |
| TrackerEntries.RemoveIds | src/experiment/tracker.py:237 | Exactly the entries whose id is not removed are kept |
| TrackerEntries.RemoveIdsLength | src/experiment/tracker.py:237-241 | The registry keeps its length exactly when no entry has a removed id, and then it is unchanged |
| TrackerEntries.RemoveIdsThenRemove | src/experiment/tracker.py:264-267 | Removing ids one after another equals removing them together |
| TrackerEntries.FilteredMeaning | src/experiment/tracker.py:172-185 | An entry survives the filters exactly when it meets each given criterion: status, category, every tag, and a case-insensitive name or id match |
| TrackerEntries.BeforeOrder | src/experiment/tracker.py:188-198 | The sort order is asymmetric, and its negation is transitive |
| TrackerEntries.Insert | src/experiment/tracker.py:198 | Inserting adds the entry to the multiset of entries |
| TrackerEntries.SortedInOrder | src/experiment/tracker.py:187-198 | The sorted registry is a permutation of the input, in key order |
| TrackerEntries.TopN | src/experiment/tracker.py:200-201 | 0 keeps all entries; a positive n keeps the first n; a negative n drops the last -n |
| Tracker.SortEntries | src/experiment/tracker.py:198 | The in-place sort yields exactly the sorted specification |
| Tracker.InsertEntry | src/experiment/tracker.py:198 | One insertion step yields exactly the specified stable insertion |
| Tracker.ExperimentRegistry.constructor | src/experiment/tracker.py:128-133 | The registry holds the loaded entries and the archive is empty |
| Tracker.ExperimentRegistry.UpdateRegistry | src/experiment/tracker.py:92-125 | The registry becomes the upsert of the new summary entry; the archive is unchanged |
| Tracker.ExperimentRegistry.FilterExperiments | src/experiment/tracker.py:148-203 | The result is the filtered, optionally sorted and truncated registry |
| Tracker.ExperimentRegistry.DeleteExperiment | src/experiment/tracker.py:231-252 | Reports whether the id existed; removes exactly the entries with that id |
| Tracker.ExperimentRegistry.CleanupFailed | src/experiment/tracker.py:255-270 | Returns the failed entries' ids in order and removes them; no failed entry is left |
| Tracker.ExperimentRegistry.ArchiveExperiments | src/experiment/tracker.py:273-325 | The selected entries move, in registry order, to the end of the archive, and the registry loses exactly their ids |
| Tracker.ExperimentRegistry.GetBestExperiment | src/experiment/tracker.py:345-357 | The result is the first entry of the status-filtered registry sorted by the metric |
| Tracker.ArchiveMeaning | src/experiment/tracker.py:289-321 | The archived entries are exactly the registry entries that are listed, created before the date, or have the status; none of them stays, and an entry stays exactly when no archived entry shares its id |
| Tracker.BestIsExtreme | src/experiment/tracker.py:345-357 | The best entry has the requested status and no entry with that status sorts strictly before it |
| Tracker.BestExists | src/experiment/tracker.py:345-357 | With higher-is-better on a sortable metric, some entry having the requested status (or no status filter) means a best entry is found |
| Tracker.BestPrefersMissing | src/experiment/tracker.py:190-198 | With higher-is-better, an entry lacking the metric sorts as +inf, so the best entry also lacks it |
| Ensemble.MapLabels | src/evaluation/ensemble.py:79 | Mapping keeps one label per row |
| Ensemble.BullMapMeaning | src/evaluation/ensemble.py:77-79 | With the bull map a row is 0 or 1, and 1 exactly when its reversal label is 2 |
| Ensemble.BearMapMeaning | src/evaluation/ensemble.py:97-99 | With the bear map a row is 0 or 1, and 1 exactly when its reversal label is 0 |
| Ensemble.TailRowsBecomeNegative | src/evaluation/ensemble.py:71-79 | The unlabelled tail rows become 0 in both mapped series, so they are not dropped later |
| Ensemble.CommonIndex | src/evaluation/ensemble.py:102-104 | The common index holds exactly the rows in both indexes |
| Ensemble.CommonIndexOrdered | src/evaluation/ensemble.py:102-107 | The common index keeps the increasing order of the bull rows |
| Ensemble.GateRule | src/evaluation/ensemble.py:175 | For equal lengths the gate succeeds, taking the bull prediction where the regime is 1 and the bear prediction elsewhere |
| Ensemble.GateAgreement | src/evaluation/ensemble.py:175 | Where both models agree, the gate returns their common prediction |
| Ensemble.SplitWindowsInside | src/evaluation/ensemble.py:153-154 | Every re-split test window lies inside the aligned rows |
| Ensemble.CombineFolds | src/evaluation/ensemble.py:153-188 | The combination loop yields exactly the combination specification |
| Ensemble.GatherFolds | src/evaluation/ensemble.py:160-180 | The per-fold loop skips folds either side lacks and pools the regime-gated predictions and true labels in fold order, exactly as the gathering specification |
| Ensemble.SkipsUncovered | src/evaluation/ensemble.py:165-170 | A fold missing from either run adds nothing and raises nothing |
| Ensemble.GatherCovered | src/evaluation/ensemble.py:160-180 | When both runs cover every fold with one prediction per test row, every fold is used, and each pooled prediction is the bull run's where the regime bit is 1 and the bear run's elsewhere |
| Ensemble.RunsCoverEveryFold | src/evaluation/ensemble.py:130-167 | Two successful runs with the same split record every fold of the re-split |
| Ensemble.NothingCoveredFails | src/evaluation/ensemble.py:169-184 | When no fold is covered, combining raises the empty-concatenation ValueError |
| Ensemble.NoCoverKeepsEmpty | src/evaluation/ensemble.py:160-182 | When no fold is covered, the pool stays empty |
| WeeklySignal.Classify | scripts/weekly_signal.py:146-161 | Bull exactly when only the bull test holds, bear when only the bear test holds, neutral when neither holds, volatile when both do |
| WeeklySignal.Trunc | scripts/weekly_signal.py:174-180 | Truncation toward zero: the floor for non-negative values and the ceiling for non-positive ones |
| WeeklySignal.Strength | scripts/weekly_signal.py:164-167 | The strength lies in [0, 1]; it is 0 at or below the floor, 1 from 0.30 above it, and proportional in between |
| WeeklySignal.Position | scripts/weekly_signal.py:169-194 | Bull positions lie in [50, 70] and bear positions in [20, 50], each the truncated offset; neutral is 50; volatile is 35 |
| WeeklySignal.GetSignalAndAdvice | scripts/weekly_signal.py:127-220 | The advice carries the classified signal and its texts, the echoed probabilities, both strengths, a position in [20, 70], and exactly the risk notes of the rules |
| WeeklySignal.SignalRule | scripts/weekly_signal.py:146-161 | The signal stated in terms of the probabilities against their thresholds |
| WeeklySignal.StrengthMonotone | scripts/weekly_signal.py:164-167 | A higher probability never gives a lower strength |
| WeeklySignal.PositionMonotone | scripts/weekly_signal.py:172-181 | Under a bull signal a higher bull probability never lowers the position; under a bear signal a higher bear probability never raises it |
| WeeklySignal.PositionExtremes | scripts/weekly_signal.py:164-181 | The 70% position needs a bull probability of at least 0.70; the 20% position needs a bear probability of at least 0.65 |
| WeeklySignal.RiskNotesMeaning | scripts/weekly_signal.py:196-206 | One to three notes, the Kappa note last; each other note is present exactly when its test holds; the weak-signal note excludes the other two |
| WeeklySignal.RiskNotesOrder | scripts/weekly_signal.py:196-206 | With both risk notes, the bear note comes before the mixed one |
| WeeklyPrediction.RowSignal | scripts/run_weekly_prediction.py:99-107 | (1,0) is strong bull, (0,1) strong bear, (0,0) ranging, and every other pair high volatility |
| WeeklyPrediction.BuildSignalMatrix | scripts/run_weekly_prediction.py:84-114 | Both columns are cut to the shorter length, and row i's signal is that of the aligned pair |
| WeeklyPrediction.MatrixAgreesWithWeeklySignal | scripts/run_weekly_prediction.py:99-107 | For 0/1 predictions the matrix names the same signal as the weekly signal's text |
| WeeklyPrediction.Share | scripts/run_weekly_prediction.py:278 | A share is 0 without rows, otherwise count × 100 / total, within [0, 100] |
| WeeklyPrediction.SharesSumToHundred | scripts/run_weekly_prediction.py:273-278 | The four signal shares of a non-empty matrix add up to 100 |
| WeeklyPrediction.KappaLevel | scripts/run_weekly_prediction.py:246-252 | Six bands, each closed below and open above, with cut points 0, 0.2, 0.4, 0.6 and 0.8 |
| WeeklyPrediction.KappaLevelMonotone | scripts/run_weekly_prediction.py:246-252 | A larger kappa never falls in a lower band |
| WeeklyPrediction.AssessModel | scripts/run_weekly_prediction.py:391-397 | Good exactly when F1 and precision both reach 0.5; mediocre when F1 reaches 0.3 otherwise; poor when F1 is below 0.3 |
| WeeklyPrediction.AssessMonotone | scripts/run_weekly_prediction.py:391-397 | Better F1 and precision never give a worse verdict |
| WeeklyPrediction.Mean | scripts/run_weekly_prediction.py:229-230 | The mean exists exactly for a non-empty column |
| WeeklyPrediction.MajorityBaseline | scripts/run_weekly_prediction.py:231-232 | For a rate in [0, 1], the baseline lies in [0.5, 1] |
| WeeklyPrediction.BaselineIsBestConstant | scripts/run_weekly_prediction.py:229-232 | On 0/1 labels the baseline is the accuracy of one of the constant predictions, and no worse than either |
| Strings.LexLessTotal | src/experiment/tracker.py:293 | Python's string order is total on distinct strings |
| Strings.Lower | src/features/builder.py:70 | Lower-casing keeps the length and maps each ASCII capital to its small letter |

## Left out

- Files and I/O are not modelled. This covers reading and writing the registry JSON, YAML configurations (`load_base_config`, `load_experiment_config`, `save_config`), parquet data, git metadata, and the directory moves and deletions of the tracker (`shutil`). The model keeps the in-memory effect of each operation.
- Logging, the markdown report texts and the e-mail and LLM scripts are not modelled.
- The model has no floating point and no NaN. Reals are exact. Undefined kappa (chance agreement of 1) is 0. Metrics of empty input are 0. The mean of an empty column is `None` instead of NaN.
- ThresholdOptimizer.DefaultGridShape: `np.arange(0.20, 0.80, 0.01)` in binary floats yields 61 thresholds, the last just below 0.80. With exact reals the grid has 60.
- WeeklySignal.PositionExtremes: with binary floats a bull probability of exactly 0.70 gives a strength just below 1 and a position of 69. With exact reals it gives 70, so the boundary case differs from the running program.
- The learning libraries (LightGBM, XGBoost, scikit-learn's estimators) are parameters. A classifier family is a record of training, prediction, probability and importance functions.
- The feature formulas of each feature set are opaque functions from frame to frame.
- Case folding is ASCII only. The int and float grammar covers decimal literals with an optional sign and fraction; exponents, underscores, "inf" and "nan" are not covered.
- The forward horizon T is a natural number. Prices are positive, so every percentage change is defined.
- The triple barrier's ATR-based thresholds are inputs, one optional value per row. Only the fixed mode computes them.
- Several ensemble inputs are given rather than computed. The regime bit is one of these: the source derives it from the 200-day moving average and writes it into the frame. The bull and bear backtest runs are the others.
- Python dictionaries keep insertion order and share structure. The model uses maps, which are values, so copying and aliasing are not modelled. The walk down a dotted path is a descent and a rebuild rather than an update through aliases.
- Config.Infer: Python's `float()` grammar is modelled for plain decimals only.
- The tracker's sort keys cover top-level string and number fields and the aggregate metrics. Sorting by `tags`, by an aggregate mapping or by the error text is excluded by a precondition, since the source compares values of mixed types there.
- The common feature columns are built from a set in the source, so their order is not fixed. The model keeps the bull columns' order.
- Backtest.RunWalkForward requires as many labels as feature rows, and a non-negative initial window and test window. Negative sizes would make Python slices count from the end.
- Splitter.WalkForwardSplit requires a positive step whenever the loop is entered. With a zero or negative step the source never terminates.
- numpy broadcasting is modelled only for one-dimensional arrays of equal length or length 1.
- ModelRegistry.CreateModel: a class's own constructor is modelled only as the merge of its default parameters under the given ones (LightGBM's `DEFAULT_PARAMS`); other constructor work, such as building the library estimator object, is not modelled.
- ThresholdOptimizer.OptimizeThreshold: the label and probability arrays are integer and real sequences, so numpy's checks on their dtypes and shapes beyond one and two dimensions are not modelled. sklearn's binary-target check follows `Metrics.BinaryTarget`.
- The LightGBM import guard (a missing library) is not modelled.
