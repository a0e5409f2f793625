/** The walk-forward backtest driver (src/evaluation/backtest.py): one
    fresh classifier per fold of the walk-forward split, trained on the
    fold's training rows and scored on its test rows; the test labels and
    predictions of all folds are pooled in fold order and scored together. */
module Backtest {
  import opened Wrappers
  import opened Splitter
  import opened Metrics
  import opened Classifier
  import opened NameRegistry
  import opened ModelRegistry

  /** What the run records for one fold. */
  datatype FoldResult = FoldResult(
    foldId: int,
    trainSize: int,
    testSize: int,
    metrics: map<string, real>,
    yTrue: seq<int>,
    yPred: seq<int>,
    yProba: Option<seq<seq<real>>>,
    importance: seq<real>)

  /** The run's result apart from `last_model`, which the method returns
      beside it. */
  datatype Report = Report(
    folds: seq<FoldResult>,
    aggregate: map<string, real>,
    allTrue: seq<int>,
    allPred: seq<int>)

  /** The fold loop's state after some folds: the recorded folds and the
      running importance sum (`None` before the first fold). */
  datatype Progress = Progress(folds: seq<FoldResult>, importanceSum: Option<seq<real>>)

  /** `importance_sum += fi` on numpy vectors: elementwise for equal
      lengths, a one-element `fi` is broadcast, any other shape raises. */
  function AddImportance(sum: Option<seq<real>>, fi: seq<real>): (r: Result<seq<real>>)
    ensures sum.None? ==> r == Ok(fi)
    ensures sum.Some? ==> (r.Ok? <==> |fi| == |sum.value| || |fi| == 1)
    ensures sum.Some? && r.Ok? ==> |r.value| == |sum.value|
    ensures sum.Some? && r.Ok? ==> forall i :: 0 <= i < |sum.value| ==>
      r.value[i] == sum.value[i] + (if |fi| == |sum.value| then fi[i] else fi[0])
  {
    match sum
    case None => Ok(fi)
    case Some(s) =>
      if |fi| == |s| then Ok(seq(|s|, i requires 0 <= i < |s| => s[i] + fi[i]))
      else if |fi| == 1 then Ok(seq(|s|, i requires 0 <= i < |s| => s[i] + fi[0]))
      else Err(ValueError("operands could not be broadcast together"))
  }

  /** One fold: create the classifier by name, fit it on the training
      rows, predict the test rows, try the probabilities, score the fold. */
  function FoldOutcome(table: map<string, Family>, modelType: string, params: Params,
                       X: seq<Row>, y: seq<int>, fold: FoldSplit, names: Option<seq<string>>): Result<FoldResult>
    requires 0 <= fold.trainStart <= fold.trainEnd <= |X| && fold.trainEnd <= |y|
    requires 0 <= fold.testStart <= fold.testEnd <= |X| && fold.testEnd <= |y|
  {
    if modelType !in table then Err(KeyError(modelType))
    else
      var f := table[modelType];
      var yTest := y[fold.testStart..fold.testEnd];
      var trained := f.train(MergedParams(f, Some(params)), X[fold.trainStart..fold.trainEnd], y[fold.trainStart..fold.trainEnd]);
      if trained.Err? then Err(trained.error)
      else
        var pred := f.predict(trained.value, X[fold.testStart..fold.testEnd]);
        if pred.Err? then Err(pred.error)
        else
          var proba := f.predictProba(trained.value, X[fold.testStart..fold.testEnd]);
          var metrics := MetricsOf(yTest, pred.value, Requested(names));
          if metrics.Err? then Err(metrics.error)
          else Ok(FoldResult(fold.foldId, fold.trainEnd - fold.trainStart, fold.testEnd - fold.testStart,
                             metrics.value, yTest, pred.value,
                             if proba.Ok? then Some(proba.value) else None,
                             f.importance(trained.value)))
  }

  /** The folds fit the data: the ranges are ordered and inside both X and y. */
  predicate InBounds(folds: seq<FoldSplit>, X: seq<Row>, y: seq<int>)
  {
    forall k :: 0 <= k < |folds| ==>
      && 0 <= folds[k].trainStart <= folds[k].trainEnd <= |X| && folds[k].trainEnd <= |y|
      && 0 <= folds[k].testStart <= folds[k].testEnd <= |X| && folds[k].testEnd <= |y|
  }

  /** The fold loop over the first |folds| folds; the first error aborts it. */
  function RunFolds(table: map<string, Family>, modelType: string, params: Params,
                    X: seq<Row>, y: seq<int>, folds: seq<FoldSplit>, names: Option<seq<string>>): Result<Progress>
    requires InBounds(folds, X, y)
  {
    if folds == [] then Ok(Progress([], None))
    else
      var prev := RunFolds(table, modelType, params, X, y, folds[..|folds| - 1], names);
      if prev.Err? then prev
      else
        var fr := FoldOutcome(table, modelType, params, X, y, folds[|folds| - 1], names);
        if fr.Err? then Err(fr.error)
        else
          var sum := AddImportance(prev.value.importanceSum, fr.value.importance);
          if sum.Err? then Err(sum.error)
          else Ok(Progress(prev.value.folds + [fr.value], Some(sum.value)))
  }

  /** `np.concatenate` of the folds' `y_true`, in fold order. */
  function PooledTrue(frs: seq<FoldResult>): seq<int>
  {
    if frs == [] then [] else PooledTrue(frs[..|frs| - 1]) + frs[|frs| - 1].yTrue
  }

  /** `np.concatenate` of the folds' `y_pred`, in fold order. */
  function PooledPred(frs: seq<FoldResult>): seq<int>
  {
    if frs == [] then [] else PooledPred(frs[..|frs| - 1]) + frs[|frs| - 1].yPred
  }

  /** The split's preconditions for the driver: the split loop ends, and
      the windows are not negative (which Python would read from the end). */
  predicate Admissible(X: seq<Row>, init: int, oos: int, step: int)
  {
    Terminates(|X|, init, oos, step) && init >= 0 && oos >= 0
  }

  /** The pooling step after the fold loop: concatenate in fold order and
      score the pooled sequences. */
  function Pool(run: Result<Progress>, names: Option<seq<string>>): Result<Report>
  {
    if run.Err? then Err(run.error)
    else
      var yt := PooledTrue(run.value.folds);
      var yp := PooledPred(run.value.folds);
      var agg := MetricsOf(yt, yp, Requested(names));
      if agg.Err? then Err(agg.error)
      else Ok(Report(run.value.folds, agg.value, yt, yp))
  }

  /** What `run_walk_forward` returns or raises. */
  function BacktestSpec(table: map<string, Family>, modelType: string, params: Params,
                        X: seq<Row>, y: seq<int>, init: int, oos: int, step: int,
                        names: Option<seq<string>>): Result<Report>
    requires Admissible(X, init, oos, step) && |y| == |X|
  {
    var split := SplitSpec(|X|, init, oos, step);
    if split.Err? then Err(split.error)
    else
      SplitInBounds(X, y, init, oos, step);
      Pool(RunFolds(table, modelType, params, X, y, split.value, names), names)
  }

  lemma SplitInBounds(X: seq<Row>, y: seq<int>, init: int, oos: int, step: int)
    requires Admissible(X, init, oos, step) && |y| == |X|
    requires SplitSpec(|X|, init, oos, step).Ok?
    ensures InBounds(SplitSpec(|X|, init, oos, step).value, X, y)
  {
    var folds := SplitSpec(|X|, init, oos, step).value;
    forall k | 0 <= k < |folds|
      ensures 0 <= folds[k].trainStart <= folds[k].trainEnd <= |X| && folds[k].trainEnd <= |y|
      ensures 0 <= folds[k].testStart <= folds[k].testEnd <= |X| && folds[k].testEnd <= |y|
    {
      FoldBounds(|X|, init, oos, step, k);
    }
  }

  /** `m` is the classifier trained for `fold`: an instance of the
      registered family, holding the merged parameters and the model that
      training on the fold's training rows produced. */
  ghost predicate TrainedOn(m: BaseModel, table: map<string, Family>, modelType: string, params: Params,
                            X: seq<Row>, y: seq<int>, fold: FoldSplit)
    reads m
  {
    && 0 <= fold.trainStart <= fold.trainEnd <= |X| && fold.trainEnd <= |y|
    && modelType in table && m.family == table[modelType]
    && m.params == MergedParams(table[modelType], Some(params))
    && m.isFitted
    && table[modelType].train(m.params, X[fold.trainStart..fold.trainEnd], y[fold.trainStart..fold.trainEnd]).Ok?
    && m.model == Some(table[modelType].train(m.params, X[fold.trainStart..fold.trainEnd], y[fold.trainStart..fold.trainEnd]).value)
  }

  /** The body of the fold loop for one fold. The classifier it creates is
      new, and fitted whenever the fold succeeds. */
  method RunFold(reg: Registry<Family>, X: seq<Row>, y: seq<int>, modelType: string, params: Params,
                 fold: FoldSplit, names: Option<seq<string>>) returns (r: Result<FoldResult>, model: Option<BaseModel>)
    requires 0 <= fold.trainStart <= fold.trainEnd <= |X| && fold.trainEnd <= |y|
    requires 0 <= fold.testStart <= fold.testEnd <= |X| && fold.testEnd <= |y|
    ensures r == FoldOutcome(reg.table, modelType, params, X, y, fold, names)
    ensures r.Ok? ==> model.Some? && fresh(model.value) && TrainedOn(model.value, reg.table, modelType, params, X, y, fold)
  {
    model := None;
    var created := CreateModel(reg, modelType, Some(params));
    if created.Err? {
      return Err(created.error), model;
    }
    var m := created.value;
    var xTrain, yTrain := X[fold.trainStart..fold.trainEnd], y[fold.trainStart..fold.trainEnd];
    var xTest, yTest := X[fold.testStart..fold.testEnd], y[fold.testStart..fold.testEnd];
    var fitted := m.Fit(xTrain, yTrain);
    if fitted.Err? {
      return Err(fitted.error), model;
    }
    ghost var trained := reg.table[modelType].train(MergedParams(reg.table[modelType], Some(params)), xTrain, yTrain).value;
    var pred := m.Predict(xTest);
    if pred.Err? {
      return Err(pred.error), model;
    }
    var proba := m.PredictProba(xTest);
    var yProba := if proba.Ok? then Some(proba.value) else None;
    var metrics := ComputeMetrics(yTest, pred.value, names);
    FoldOutcomeScored(reg.table, modelType, params, X, y, fold, names, trained, pred.value);
    if metrics.Err? {
      return Err(metrics.error), model;
    }
    var fi := m.FeatureImportance();
    model := Some(m);
    r := Ok(FoldResult(fold.foldId, fold.trainEnd - fold.trainStart, fold.testEnd - fold.testStart,
                       metrics.value, yTest, pred.value, yProba, fi.value));
  }

  /** Past training and prediction, a fold's outcome is decided by its metrics. */
  lemma FoldOutcomeScored(table: map<string, Family>, modelType: string, params: Params,
                          X: seq<Row>, y: seq<int>, fold: FoldSplit, names: Option<seq<string>>,
                          trained: Trained, pred: seq<int>)
    requires 0 <= fold.trainStart <= fold.trainEnd <= |X| && fold.trainEnd <= |y|
    requires 0 <= fold.testStart <= fold.testEnd <= |X| && fold.testEnd <= |y|
    requires modelType in table
    requires table[modelType].train(MergedParams(table[modelType], Some(params)), X[fold.trainStart..fold.trainEnd], y[fold.trainStart..fold.trainEnd]) == Ok(trained)
    requires table[modelType].predict(trained, X[fold.testStart..fold.testEnd]) == Ok(pred)
    ensures var yTest := y[fold.testStart..fold.testEnd];
      var metrics := MetricsOf(yTest, pred, Requested(names));
      var proba := table[modelType].predictProba(trained, X[fold.testStart..fold.testEnd]);
      FoldOutcome(table, modelType, params, X, y, fold, names) ==
        if metrics.Err? then Err(metrics.error)
        else Ok(FoldResult(fold.foldId, fold.trainEnd - fold.trainStart, fold.testEnd - fold.testStart,
                           metrics.value, yTest, pred, if proba.Ok? then Some(proba.value) else None,
                           table[modelType].importance(trained)))
  {
    var f := table[modelType];
    var xTest := X[fold.testStart..fold.testEnd];
    assert f.predict(trained, xTest) == Ok(pred);
  }

  /** The fold loop of `run_walk_forward`: a classifier per fold from the
      registry, errors from `create_model`, `fit`, `predict`, the metrics
      and the importance sum propagated, each fold recorded and its test
      labels and predictions appended; `last` is the final fold's
      classifier. */
  method RunFoldLoop(reg: Registry<Family>, X: seq<Row>, y: seq<int>, modelType: string, params: Params,
                     folds: seq<FoldSplit>, names: Option<seq<string>>)
    returns (run: Result<Progress>, allTrue: seq<int>, allPred: seq<int>, last: Option<BaseModel>)
    requires InBounds(folds, X, y)
    ensures run == RunFolds(reg.table, modelType, params, X, y, folds, names)
    ensures run.Ok? ==> allTrue == PooledTrue(run.value.folds) && allPred == PooledPred(run.value.folds)
    ensures run.Ok? && folds != [] ==>
      last.Some? && TrainedOn(last.value, reg.table, modelType, params, X, y, folds[|folds| - 1])
  {
    last := None;
    var results: seq<FoldResult> := [];
    allTrue, allPred := [], [];
    var importanceSum: Option<seq<real>> := None;
    for i := 0 to |folds|
      invariant RunFolds(reg.table, modelType, params, X, y, folds[..i], names) == Ok(Progress(results, importanceSum))
      invariant allTrue == PooledTrue(results) && allPred == PooledPred(results)
      invariant i > 0 ==> last.Some? && TrainedOn(last.value, reg.table, modelType, params, X, y, folds[i - 1])
    {
      RunFoldsStep(reg.table, modelType, params, X, y, folds, names, i);
      var fr, model := RunFold(reg, X, y, modelType, params, folds[i], names);
      if fr.Err? {
        run := Err(fr.error);
        RunFoldsErrSticks(reg.table, modelType, params, X, y, folds, names, i + 1);
        assert folds[..|folds|] == folds;
        return;
      }
      var sum := AddImportance(importanceSum, fr.value.importance);
      if sum.Err? {
        run := Err(sum.error);
        RunFoldsErrSticks(reg.table, modelType, params, X, y, folds, names, i + 1);
        assert folds[..|folds|] == folds;
        return;
      }
      PooledExtend(results, fr.value);
      importanceSum := Some(sum.value);
      results := results + [fr.value];
      allTrue := allTrue + fr.value.yTrue;
      allPred := allPred + fr.value.yPred;
      last := model;
    }
    assert folds[..|folds|] == folds;
    run := Ok(Progress(results, importanceSum));
  }

  /** `run_walk_forward`: the split, the fold loop, then the pooled
      metrics. */
  method RunWalkForward(reg: Registry<Family>, X: seq<Row>, y: seq<int>, modelType: string, params: Params,
                        init: int, oos: int, step: int, names: Option<seq<string>>)
    returns (r: Result<Report>, last: Option<BaseModel>)
    requires Admissible(X, init, oos, step) && |y| == |X|
    ensures r == BacktestSpec(reg.table, modelType, params, X, y, init, oos, step, names)
    ensures r.Ok? ==>
      && SplitSpec(|X|, init, oos, step).Ok?
      && var folds := SplitSpec(|X|, init, oos, step).value;
         |folds| > 0 && last.Some? && TrainedOn(last.value, reg.table, modelType, params, X, y, folds[|folds| - 1])
  {
    last := None;
    var split := WalkForwardSplit(|X|, init, oos, step);
    if split.Err? {
      return Err(split.error), last;
    }
    var folds := split.value;
    SplitFailsExactly(|X|, init, oos, step);
    SplitInBounds(X, y, init, oos, step);
    var run, allTrue, allPred;
    run, allTrue, allPred, last := RunFoldLoop(reg, X, y, modelType, params, folds, names);
    if run.Err? {
      return Err(run.error), last;
    }
    var aggregate := ComputeMetrics(allTrue, allPred, names);
    if aggregate.Err? {
      return Err(aggregate.error), last;
    }
    r := Ok(Report(run.value.folds, aggregate.value, allTrue, allPred));
  }

  lemma PooledExtend(frs: seq<FoldResult>, fr: FoldResult)
    ensures PooledTrue(frs + [fr]) == PooledTrue(frs) + fr.yTrue
    ensures PooledPred(frs + [fr]) == PooledPred(frs) + fr.yPred
  {
    assert (frs + [fr])[..|frs|] == frs;
  }

  /** One more successful fold extends the recorded folds by its result. */
  lemma RunFoldsStep(table: map<string, Family>, modelType: string, params: Params,
                     X: seq<Row>, y: seq<int>, folds: seq<FoldSplit>, names: Option<seq<string>>, i: nat)
    requires InBounds(folds, X, y)
    requires i < |folds|
    ensures InBounds(folds[..i], X, y) && InBounds(folds[..i + 1], X, y)
    ensures RunFolds(table, modelType, params, X, y, folds[..i + 1], names) ==
      var prev := RunFolds(table, modelType, params, X, y, folds[..i], names);
      var fr := FoldOutcome(table, modelType, params, X, y, folds[i], names);
      if prev.Err? then prev
      else if fr.Err? then Err(fr.error)
      else if AddImportance(prev.value.importanceSum, fr.value.importance).Err? then
        Err(AddImportance(prev.value.importanceSum, fr.value.importance).error)
      else Ok(Progress(prev.value.folds + [fr.value], Some(AddImportance(prev.value.importanceSum, fr.value.importance).value)))
  {
    assert folds[..i + 1][..i] == folds[..i];
  }

  /** Once a fold fails the whole run fails with that error. */
  lemma {:induction false} RunFoldsErrSticks(table: map<string, Family>, modelType: string, params: Params,
                                             X: seq<Row>, y: seq<int>, folds: seq<FoldSplit>, names: Option<seq<string>>, i: nat)
    requires InBounds(folds, X, y)
    requires 0 < i <= |folds|
    requires RunFolds(table, modelType, params, X, y, folds[..i], names).Err?
    ensures RunFolds(table, modelType, params, X, y, folds, names) == RunFolds(table, modelType, params, X, y, folds[..i], names)
    decreases |folds| - i
  {
    if i < |folds| {
      assert folds[..i + 1][..i] == folds[..i];
      RunFoldsErrSticks(table, modelType, params, X, y, folds, names, i + 1);
    } else {
      assert folds[..i] == folds;
    }
  }

  /** A fold succeeds exactly when the model name is registered and
      training, prediction and the fold's metrics all succeed; a failing
      `predict_proba` only leaves the probabilities out. */
  lemma FoldOutcomeMeaning(table: map<string, Family>, modelType: string, params: Params,
                           X: seq<Row>, y: seq<int>, fold: FoldSplit, names: Option<seq<string>>)
    requires 0 <= fold.trainStart <= fold.trainEnd <= |X| && fold.trainEnd <= |y|
    requires 0 <= fold.testStart <= fold.testEnd <= |X| && fold.testEnd <= |y|
    ensures modelType !in table ==> FoldOutcome(table, modelType, params, X, y, fold, names) == Err(KeyError(modelType))
    ensures modelType in table ==>
      var f := table[modelType];
      var trained := f.train(MergedParams(f, Some(params)), X[fold.trainStart..fold.trainEnd], y[fold.trainStart..fold.trainEnd]);
      var xTest := X[fold.testStart..fold.testEnd];
      var yTest := y[fold.testStart..fold.testEnd];
      var r := FoldOutcome(table, modelType, params, X, y, fold, names);
      && (r.Ok? <==> trained.Ok? && f.predict(trained.value, xTest).Ok?
                     && MetricsOf(yTest, f.predict(trained.value, xTest).value, Requested(names)).Ok?)
      && (r.Ok? ==>
            && r.value.yTrue == yTest
            && r.value.yPred == f.predict(trained.value, xTest).value
            && r.value.metrics == MetricsOf(yTest, r.value.yPred, Requested(names)).value
            && r.value.importance == f.importance(trained.value)
            && (r.value.yProba.None? <==> f.predictProba(trained.value, xTest).Err?))
  {
  }

  /** A successful fold loop records one result per fold, each the
      outcome of its own fold. */
  lemma {:induction false} RunFoldsMeaning(table: map<string, Family>, modelType: string, params: Params,
                                           X: seq<Row>, y: seq<int>, folds: seq<FoldSplit>, names: Option<seq<string>>)
    requires InBounds(folds, X, y)
    requires RunFolds(table, modelType, params, X, y, folds, names).Ok?
    ensures var p := RunFolds(table, modelType, params, X, y, folds, names).value;
      && |p.folds| == |folds|
      && forall k :: 0 <= k < |folds| ==> FoldOutcome(table, modelType, params, X, y, folds[k], names) == Ok(p.folds[k])
  {
    RunFoldsLength(table, modelType, params, X, y, folds, names);
    forall k | 0 <= k < |folds|
      ensures FoldOutcome(table, modelType, params, X, y, folds[k], names) == Ok(RunFolds(table, modelType, params, X, y, folds, names).value.folds[k])
    {
      RunFoldsAt(table, modelType, params, X, y, folds, names, k);
    }
  }

  lemma {:induction false} RunFoldsLength(table: map<string, Family>, modelType: string, params: Params,
                                          X: seq<Row>, y: seq<int>, folds: seq<FoldSplit>, names: Option<seq<string>>)
    requires InBounds(folds, X, y)
    requires RunFolds(table, modelType, params, X, y, folds, names).Ok?
    ensures |RunFolds(table, modelType, params, X, y, folds, names).value.folds| == |folds|
  {
    if folds != [] {
      RunFoldsLast(table, modelType, params, X, y, folds, names);
      RunFoldsLength(table, modelType, params, X, y, folds[..|folds| - 1], names);
    }
  }

  /** Fold k of a successful loop is recorded as that fold's own outcome. */
  lemma {:induction false} RunFoldsAt(table: map<string, Family>, modelType: string, params: Params,
                                      X: seq<Row>, y: seq<int>, folds: seq<FoldSplit>, names: Option<seq<string>>, k: nat)
    requires InBounds(folds, X, y) && k < |folds|
    requires RunFolds(table, modelType, params, X, y, folds, names).Ok?
    ensures var p := RunFolds(table, modelType, params, X, y, folds, names).value;
      k < |p.folds| && FoldOutcome(table, modelType, params, X, y, folds[k], names) == Ok(p.folds[k])
    decreases |folds|
  {
    var n := |folds| - 1;
    RunFoldsLast(table, modelType, params, X, y, folds, names);
    RunFoldsLength(table, modelType, params, X, y, folds, names);
    if k < n {
      var init := folds[..n];
      RunFoldsAt(table, modelType, params, X, y, init, names, k);
      var prev := RunFolds(table, modelType, params, X, y, init, names).value;
      var p := RunFolds(table, modelType, params, X, y, folds, names).value;
      assert folds[k] == init[k];
      assert p.folds[k] == p.folds[..n][k] == prev.folds[k];
    }
  }

  /** A successful fold loop over a non-empty list: the loop over all but
      the last fold succeeded, and the last fold's outcome was appended. */
  lemma RunFoldsLast(table: map<string, Family>, modelType: string, params: Params,
                     X: seq<Row>, y: seq<int>, folds: seq<FoldSplit>, names: Option<seq<string>>)
    requires InBounds(folds, X, y) && folds != []
    requires RunFolds(table, modelType, params, X, y, folds, names).Ok?
    ensures InBounds(folds[..|folds| - 1], X, y)
    ensures var prev := RunFolds(table, modelType, params, X, y, folds[..|folds| - 1], names);
      var p := RunFolds(table, modelType, params, X, y, folds, names).value;
      && prev.Ok?
      && |p.folds| == |prev.value.folds| + 1
      && p.folds[..|p.folds| - 1] == prev.value.folds
      && FoldOutcome(table, modelType, params, X, y, folds[|folds| - 1], names) == Ok(p.folds[|p.folds| - 1])
  {
    assert InBounds(folds[..|folds| - 1], X, y);
  }

  /** The test windows of the first c folds, concatenated: fold k's window
      is the `oos` labels from row init + k*step. */
  function TestWindows(y: seq<int>, init: nat, oos: nat, step: int, c: nat): seq<int>
    requires forall k :: 0 <= k < c ==> 0 <= init + k * step && init + k * step + oos <= |y|
  {
    if c == 0 then []
    else TestWindows(y, init, oos, step, c - 1) + y[init + (c - 1) * step..init + (c - 1) * step + oos]
  }

  /** The pooled labels are the folds' test windows in fold order, so their
      length is the number of folds times the window. */
  lemma {:induction false} PooledIsWindows(frs: seq<FoldResult>, y: seq<int>, init: nat, oos: nat, step: int)
    requires forall k :: 0 <= k < |frs| ==> 0 <= init + k * step && init + k * step + oos <= |y|
    requires forall k :: 0 <= k < |frs| ==> frs[k].yTrue == y[init + k * step..init + k * step + oos]
    ensures PooledTrue(frs) == TestWindows(y, init, oos, step, |frs|)
    ensures |PooledTrue(frs)| == |frs| * oos
  {
    if frs != [] {
      var n := |frs| - 1;
      assert forall k :: 0 <= k < n ==> frs[..n][k] == frs[k];
      PooledIsWindows(frs[..n], y, init, oos, step);
    }
    TestWindowsLength(y, init, oos, step, |frs|);
  }

  lemma {:induction false} TestWindowsLength(y: seq<int>, init: nat, oos: nat, step: int, c: nat)
    requires forall k :: 0 <= k < c ==> 0 <= init + k * step && init + k * step + oos <= |y|
    ensures |TestWindows(y, init, oos, step, c)| == c * oos
  {
    if c > 0 {
      TestWindowsLength(y, init, oos, step, c - 1);
      assert c * oos == (c - 1) * oos + oos;
    }
  }

  /** What a recorded fold holds about its own split: the fold's id and
      sizes, and the true labels of its test window. */
  lemma FoldRecorded(table: map<string, Family>, modelType: string, params: Params,
                     X: seq<Row>, y: seq<int>, fold: FoldSplit, names: Option<seq<string>>)
    requires 0 <= fold.trainStart <= fold.trainEnd <= |X| && fold.trainEnd <= |y|
    requires 0 <= fold.testStart <= fold.testEnd <= |X| && fold.testEnd <= |y|
    requires FoldOutcome(table, modelType, params, X, y, fold, names).Ok?
    ensures modelType in table
    ensures var fr := FoldOutcome(table, modelType, params, X, y, fold, names).value;
      && fr.foldId == fold.foldId
      && fr.trainSize == fold.trainEnd - fold.trainStart
      && fr.testSize == fold.testEnd - fold.testStart
      && fr.yTrue == y[fold.testStart..fold.testEnd]
  {
  }

  /** The folds of a successful run: one recorded fold per split fold,
      fold k trained on rows [0, init + k*step) and tested on the next
      `oos` rows. */
  lemma BacktestFolds(table: map<string, Family>, modelType: string, params: Params,
                      X: seq<Row>, y: seq<int>, init: int, oos: int, step: int, names: Option<seq<string>>)
    requires Admissible(X, init, oos, step) && |y| == |X|
    requires BacktestSpec(table, modelType, params, X, y, init, oos, step, names).Ok?
    ensures var rep := BacktestSpec(table, modelType, params, X, y, init, oos, step, names).value;
      && SplitSpec(|X|, init, oos, step).Ok?
      && |rep.folds| == |SplitSpec(|X|, init, oos, step).value| >= 1
      && modelType in table
      && (forall k :: 0 <= k < |rep.folds| ==>
            && rep.folds[k].foldId == k
            && rep.folds[k].trainSize == init + k * step
            && rep.folds[k].testSize == oos
            && 0 <= init + k * step && init + k * step + oos <= |y|
            && rep.folds[k].yTrue == y[init + k * step..init + k * step + oos])
  {
    var folds := SplitSpec(|X|, init, oos, step).value;
    SplitInBounds(X, y, init, oos, step);
    RunFoldsLength(table, modelType, params, X, y, folds, names);
    var p := RunFolds(table, modelType, params, X, y, folds, names).value;
    assert BacktestSpec(table, modelType, params, X, y, init, oos, step, names).value.folds == p.folds;
    forall k | 0 <= k < |folds|
      ensures p.folds[k].foldId == k && p.folds[k].trainSize == init + k * step && p.folds[k].testSize == oos
      ensures 0 <= init + k * step && init + k * step + oos <= |y|
      ensures p.folds[k].yTrue == y[init + k * step..init + k * step + oos]
    {
      FoldShape(table, modelType, params, X, y, init, oos, step, names, k);
    }
    SplitFailsExactly(|X|, init, oos, step);
    FoldShape(table, modelType, params, X, y, init, oos, step, names, 0);
  }

  /** Fold k of a successful run is the k-th window of the split. */
  lemma FoldShape(table: map<string, Family>, modelType: string, params: Params,
                  X: seq<Row>, y: seq<int>, init: int, oos: int, step: int, names: Option<seq<string>>, k: nat)
    requires Admissible(X, init, oos, step) && |y| == |X|
    requires SplitSpec(|X|, init, oos, step).Ok? && k < |SplitSpec(|X|, init, oos, step).value|
    requires InBounds(SplitSpec(|X|, init, oos, step).value, X, y)
    requires RunFolds(table, modelType, params, X, y, SplitSpec(|X|, init, oos, step).value, names).Ok?
    ensures var p := RunFolds(table, modelType, params, X, y, SplitSpec(|X|, init, oos, step).value, names).value;
      && modelType in table
      && k < |p.folds|
      && p.folds[k].foldId == k && p.folds[k].trainSize == init + k * step && p.folds[k].testSize == oos
      && 0 <= init + k * step && init + k * step + oos <= |y|
      && p.folds[k].yTrue == y[init + k * step..init + k * step + oos]
  {
    var folds := SplitSpec(|X|, init, oos, step).value;
    FoldBounds(|X|, init, oos, step, k);
    RunFoldsAt(table, modelType, params, X, y, folds, names, k);
    FoldRecorded(table, modelType, params, X, y, folds[k], names);
  }

  /** The pooled labels of a successful run are the test windows in fold
      order, `oos` labels per fold, and the aggregate metrics are those of
      the pooled sequences, not an average of the folds' metrics. */
  lemma BacktestPooled(table: map<string, Family>, modelType: string, params: Params,
                       X: seq<Row>, y: seq<int>, init: int, oos: int, step: int, names: Option<seq<string>>)
    requires Admissible(X, init, oos, step) && |y| == |X|
    requires BacktestSpec(table, modelType, params, X, y, init, oos, step, names).Ok?
    ensures var rep := BacktestSpec(table, modelType, params, X, y, init, oos, step, names).value;
      && (forall k :: 0 <= k < |rep.folds| ==> 0 <= init + k * step && init + k * step + oos <= |y|)
      && rep.allTrue == TestWindows(y, init, oos, step, |rep.folds|)
      && |rep.allTrue| == |rep.folds| * oos
      && rep.allPred == PooledPred(rep.folds)
      && rep.aggregate == MetricsOf(rep.allTrue, rep.allPred, Requested(names)).value
  {
    var rep := BacktestSpec(table, modelType, params, X, y, init, oos, step, names).value;
    BacktestFolds(table, modelType, params, X, y, init, oos, step, names);
    assert rep.allTrue == PooledTrue(rep.folds);
    PooledIsWindows(rep.folds, y, init, oos, step);
  }

  /** The run raises the split's ValueError when no fold fits, and a
      KeyError for an unregistered model name before training anything. */
  lemma BacktestFailures(table: map<string, Family>, modelType: string, params: Params,
                         X: seq<Row>, y: seq<int>, init: int, oos: int, step: int, names: Option<seq<string>>)
    requires Admissible(X, init, oos, step) && |y| == |X|
    ensures init >= |X| || init + oos > |X| ==>
      BacktestSpec(table, modelType, params, X, y, init, oos, step, names).Err?
      && BacktestSpec(table, modelType, params, X, y, init, oos, step, names).error.ValueError?
    ensures init < |X| && init + oos <= |X| && modelType !in table ==>
      BacktestSpec(table, modelType, params, X, y, init, oos, step, names) == Err(KeyError(modelType))
  {
    SplitFailsExactly(|X|, init, oos, step);
    if init < |X| && init + oos <= |X| && modelType !in table {
      var folds := SplitSpec(|X|, init, oos, step).value;
      SplitInBounds(X, y, init, oos, step);
      assert folds[..1][..0] == [];
      assert RunFolds(table, modelType, params, X, y, folds[..1], names) == Err(KeyError(modelType));
      RunFoldsErrSticks(table, modelType, params, X, y, folds, names, 1);
    }
  }
}
