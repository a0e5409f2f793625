/** The bull/bear hard-switch combiner (src/evaluation/ensemble.py). Two
    walk-forward runs are made on the same aligned rows: a bull model on
    bottom-reversal labels and a bear model on top-reversal labels. For
    every fold both runs cover, each test row takes the bull prediction when
    the row's regime bit is 1 and the bear prediction otherwise; the gated
    predictions are pooled in fold order and scored against the bull labels.
    The regime bit itself (close above its 200-row mean) is an input. */
module Ensemble {
  import opened Wrappers
  import opened Splitter
  import opened Metrics
  import opened LabelSeries
  import opened ReversalLabels
  import opened Backtest
  import opened Classifier

  // Label maps

  /** The default bull map: a bottom reversal (2) is the positive class. */
  const BullMap: map<int, int> := map[0 := 0, 1 := 0, 2 := 1]

  /** The default bear map: a top reversal (0) is the positive class. */
  const BearMap: map<int, int> := map[0 := 1, 1 := 0, 2 := 0]

  /** `series.map(label_map).fillna(0).astype(int)` at one row: a label
      equal to an integer key maps to that key's value; a missing label or
      one the map does not list becomes 0. */
  function MapLabel(v: Option<real>, m: map<int, int>): int
  {
    if v.Some? && v.value == v.value.Floor as real && v.value.Floor in m then m[v.value.Floor] else 0
  }

  function MapLabels(s: Labels, m: map<int, int>): (r: seq<int>)
    ensures |r| == |s|
  {
    seq(|s|, i requires 0 <= i < |s| => MapLabel(s[i], m))
  }

  /** With the default bull map a row is positive exactly when its reversal
      label is 2; every mapped label is 0 or 1. */
  lemma BullMapMeaning(s: Labels, i: nat)
    requires i < |s|
    ensures MapLabels(s, BullMap)[i] in {0, 1}
    ensures MapLabels(s, BullMap)[i] == 1 <==> s[i] == Some(2.0)
  {
    var v := s[i];
    if v.Some? && v.value == v.value.Floor as real && v.value.Floor in BullMap {
      assert v.value.Floor == 0 || v.value.Floor == 1 || v.value.Floor == 2;
    }
  }

  /** With the default bear map a row is positive exactly when its reversal
      label is 0; every mapped label is 0 or 1. */
  lemma BearMapMeaning(s: Labels, i: nat)
    requires i < |s|
    ensures MapLabels(s, BearMap)[i] in {0, 1}
    ensures MapLabels(s, BearMap)[i] == 1 <==> s[i] == Some(0.0)
  {
    var v := s[i];
    if v.Some? && v.value == v.value.Floor as real && v.value.Floor in BearMap {
      assert v.value.Floor == 0 || v.value.Floor == 1 || v.value.Floor == 2;
    }
  }

  /** The last T rows of a reversal series have no label; after the map
      and `fillna(0)` they are ordinary negatives, so they stay in the data
      under both maps. */
  lemma TailRowsBecomeNegative(close: seq<real>, T: nat, X: real, k: nat)
    requires PositivePrices(close)
    requires k < |close| && k + T >= |close|
    ensures MapLabels(ReversalSeries(close, T, X), BullMap)[k] == 0
    ensures MapLabels(ReversalSeries(close, T, X), BearMap)[k] == 0
  {
    assert ReversalSeries(close, T, X)[k].None?;
  }

  // Rows kept for both models

  /** `bull_index.intersection(bear_index)` for indexes without duplicates,
      in the order of the first. */
  function CommonIndex(a: seq<int>, b: seq<int>): (r: seq<int>)
    ensures forall x :: x in r <==> x in a && x in b
    ensures |r| <= |a|
  {
    if a == [] then []
    else if a[0] in b then [a[0]] + CommonIndex(a[1..], b)
    else CommonIndex(a[1..], b)
  }

  predicate Increasing(s: seq<int>)
  {
    forall i, j :: 0 <= i < j < |s| ==> s[i] < s[j]
  }

  /** The common index keeps the order of the bull rows and lists no row
      twice, so both restricted frames have the same rows in the same order. */
  lemma {:induction false} CommonIndexOrdered(a: seq<int>, b: seq<int>)
    requires Increasing(a)
    ensures Increasing(CommonIndex(a, b))
  {
    if a != [] {
      var tail := a[1..];
      CommonIndexOrdered(tail, b);
      var rest := CommonIndex(tail, b);
      forall x | x in rest
        ensures a[0] < x
      {
        var j :| 0 <= j < |tail| && tail[j] == x;
        assert a[j + 1] == x;
      }
      if a[0] in b {
        var r := [a[0]] + rest;
        forall i, j | 0 <= i < j < |r|
          ensures r[i] < r[j]
        {
          assert r[j] == rest[j - 1];
          if i > 0 {
            assert r[i] == rest[i - 1];
          } else {
            assert rest[j - 1] in rest;
          }
        }
      }
    }
  }

  // The gate

  /** numpy broadcasting of two 1-D lengths. */
  function Broadcast(x: nat, y: nat): Option<nat>
  {
    if x == y then Some(x) else if x == 1 then Some(y) else if y == 1 then Some(x) else None
  }

  /** Element i of a 1-D array broadcast to a longer length. */
  function At<T>(s: seq<T>, i: nat): T
    requires |s| == 1 || i < |s|
  {
    if |s| == 1 then s[0] else s[i]
  }

  /** `np.where(regime == 1, bull_pred, bear_pred)`: the three arrays are
      broadcast to one length, or the call raises. */
  function Where(regime: seq<int>, bull: seq<int>, bear: seq<int>): (r: Result<seq<int>>)
  {
    var l1 := Broadcast(|regime|, |bull|);
    if l1.None? || Broadcast(l1.value, |bear|).None? then
      Err(ValueError("operands could not be broadcast together"))
    else
      var n := Broadcast(l1.value, |bear|).value;
      Ok(seq(n, i requires 0 <= i < n => if At(regime, i) == 1 then At(bull, i) else At(bear, i)))
  }

  /** For equal lengths the gate never fails: each row takes the bull
      prediction exactly when its regime bit is 1, and the bear prediction
      otherwise. */
  lemma GateRule(regime: seq<int>, bull: seq<int>, bear: seq<int>)
    requires |bull| == |regime| && |bear| == |regime|
    ensures Where(regime, bull, bear).Ok?
    ensures var c := Where(regime, bull, bear).value;
      && |c| == |regime|
      && forall i :: 0 <= i < |regime| ==> (if regime[i] == 1 then c[i] == bull[i] else c[i] == bear[i])
  {
  }

  /** When the bull and bear models agree on a row, the regime does not
      matter for that row. */
  lemma GateAgreement(regime: seq<int>, bull: seq<int>, bear: seq<int>, i: nat)
    requires |bull| == |regime| && |bear| == |regime| && i < |regime|
    requires bull[i] == bear[i]
    ensures Where(regime, bull, bear).Ok? && Where(regime, bull, bear).value[i] == bull[i]
  {
  }

  // Combining the folds

  /** What the loop has pooled: the combined truth, the combined
      predictions, the regime bits, and how many folds were used. */
  datatype Pooled = Pooled(yTrue: seq<int>, yPred: seq<int>, regime: seq<int>, used: nat)

  /** The combination result: the pooled sequences and their metrics. */
  datatype Combined = Combined(yTrue: seq<int>, yPred: seq<int>, regime: seq<int>, metrics: map<string, real>)

  /** Every fold's test window lies inside the aligned rows. */
  predicate WindowsInside(folds: seq<FoldSplit>, n: nat)
  {
    forall k :: 0 <= k < |folds| ==> 0 <= folds[k].testStart <= folds[k].testEnd <= n
  }

  /** A fold is used when both runs recorded a fold with its id. */
  predicate Covered(fold: FoldSplit, bull: seq<FoldResult>, bear: seq<FoldResult>)
  {
    0 <= fold.foldId < |bull| && fold.foldId < |bear|
  }

  /** One iteration of the loop: skip an uncovered fold, else gate its
      predictions and append the fold's truth, predictions and regime bits. */
  function GatherOne(prev: Result<Pooled>, f: FoldSplit, bull: seq<FoldResult>, bear: seq<FoldResult>,
                     regime: seq<int>, yBull: seq<int>): Result<Pooled>
    requires |regime| == |yBull| && 0 <= f.testStart <= f.testEnd <= |yBull|
  {
    if prev.Err? || !Covered(f, bull, bear) then prev
    else
      var r := regime[f.testStart..f.testEnd];
      var c := Where(r, bull[f.foldId].yPred, bear[f.foldId].yPred);
      if c.Err? then Err(c.error)
      else Ok(Pooled(prev.value.yTrue + yBull[f.testStart..f.testEnd], prev.value.yPred + c.value,
                     prev.value.regime + r, prev.value.used + 1))
  }

  /** The loop over the first |folds| folds. */
  function Gather(folds: seq<FoldSplit>, bull: seq<FoldResult>, bear: seq<FoldResult>,
                  regime: seq<int>, yBull: seq<int>): Result<Pooled>
    requires |regime| == |yBull| && WindowsInside(folds, |yBull|)
  {
    if folds == [] then Ok(Pooled([], [], [], 0))
    else GatherOne(Gather(folds[..|folds| - 1], bull, bear, regime, yBull), folds[|folds| - 1], bull, bear, regime, yBull)
  }

  /** After the loop: an empty pool cannot be concatenated; otherwise the
      pooled sequences are scored. */
  function Finish(g: Result<Pooled>, names: Option<seq<string>>): Result<Combined>
  {
    if g.Err? then Err(g.error)
    else if g.value.used == 0 then Err(ValueError("need at least one array to concatenate"))
    else
      var m := MetricsOf(g.value.yTrue, g.value.yPred, Requested(names));
      if m.Err? then Err(m.error)
      else Ok(Combined(g.value.yTrue, g.value.yPred, g.value.regime, m.value))
  }

  /** What the combination part of `run_ensemble_evaluation` returns or
      raises, given the aligned regime bits and bull labels and the two
      runs' recorded folds. */
  function CombineSpec(regime: seq<int>, yBull: seq<int>, bull: seq<FoldResult>, bear: seq<FoldResult>,
                       init: int, oos: int, step: int, names: Option<seq<string>>): Result<Combined>
    requires |regime| == |yBull|
    requires Terminates(|yBull|, init, oos, step) && init >= 0 && oos >= 0
  {
    var split := SplitSpec(|yBull|, init, oos, step);
    if split.Err? then Err(split.error)
    else
      SplitWindowsInside(|yBull|, init, oos, step);
      Finish(Gather(split.value, bull, bear, regime, yBull), names)
  }

  lemma SplitWindowsInside(n: nat, init: int, oos: int, step: int)
    requires Terminates(n, init, oos, step) && init >= 0 && oos >= 0
    requires SplitSpec(n, init, oos, step).Ok?
    ensures WindowsInside(SplitSpec(n, init, oos, step).value, n)
  {
    var folds := SplitSpec(n, init, oos, step).value;
    forall k | 0 <= k < |folds|
      ensures 0 <= folds[k].testStart <= folds[k].testEnd <= n
    {
      FoldBounds(n, init, oos, step, k);
    }
  }

  /** The combination loop: re-splits the aligned rows, skips folds either
      run lacks, gates each covered fold's predictions by the regime bits,
      pools in fold order and scores the pooled sequences. */
  method CombineFolds(regime: seq<int>, yBull: seq<int>, bull: seq<FoldResult>, bear: seq<FoldResult>,
                      init: int, oos: int, step: int, names: Option<seq<string>>) returns (r: Result<Combined>)
    requires |regime| == |yBull|
    requires Terminates(|yBull|, init, oos, step) && init >= 0 && oos >= 0
    ensures r == CombineSpec(regime, yBull, bull, bear, init, oos, step, names)
  {
    var split := WalkForwardSplit(|yBull|, init, oos, step);
    if split.Err? {
      return Err(split.error);
    }
    SplitWindowsInside(|yBull|, init, oos, step);
    var g := GatherFolds(split.value, bull, bear, regime, yBull);
    if g.Err? {
      return Err(g.error);
    }
    if g.value.used == 0 {
      return Err(ValueError("need at least one array to concatenate"));
    }
    var metrics := ComputeMetrics(g.value.yTrue, g.value.yPred, names);
    if metrics.Err? {
      return Err(metrics.error);
    }
    r := Ok(Combined(g.value.yTrue, g.value.yPred, g.value.regime, metrics.value));
  }

  /** The loop over the folds: skips folds either run lacks, gates each
      covered fold's predictions by the regime bits and pools in fold order. */
  method GatherFolds(folds: seq<FoldSplit>, bull: seq<FoldResult>, bear: seq<FoldResult>,
                     regime: seq<int>, yBull: seq<int>) returns (g: Result<Pooled>)
    requires |regime| == |yBull| && WindowsInside(folds, |yBull|)
    ensures g == Gather(folds, bull, bear, regime, yBull)
  {
    var allTrue: seq<int> := [];
    var allPred: seq<int> := [];
    var allRegime: seq<int> := [];
    var used: nat := 0;
    for i := 0 to |folds|
      invariant Gather(folds[..i], bull, bear, regime, yBull) == Ok(Pooled(allTrue, allPred, allRegime, used))
    {
      GatherStep(folds, bull, bear, regime, yBull, i);
      var fold := folds[i];
      if !(0 <= fold.foldId < |bull|) || !(fold.foldId < |bear|) {
        continue;
      }
      var testRegime := regime[fold.testStart..fold.testEnd];
      var combined := Where(testRegime, bull[fold.foldId].yPred, bear[fold.foldId].yPred);
      if combined.Err? {
        g := Err(combined.error);
        GatherErrSticks(folds, bull, bear, regime, yBull, i + 1);
        assert folds[..|folds|] == folds;
        return;
      }
      allTrue := allTrue + yBull[fold.testStart..fold.testEnd];
      allPred := allPred + combined.value;
      allRegime := allRegime + testRegime;
      used := used + 1;
    }
    assert folds[..|folds|] == folds;
    g := Ok(Pooled(allTrue, allPred, allRegime, used));
  }

  lemma GatherStep(folds: seq<FoldSplit>, bull: seq<FoldResult>, bear: seq<FoldResult>,
                   regime: seq<int>, yBull: seq<int>, i: nat)
    requires |regime| == |yBull| && WindowsInside(folds, |yBull|) && i < |folds|
    ensures WindowsInside(folds[..i], |yBull|) && WindowsInside(folds[..i + 1], |yBull|)
    ensures Gather(folds[..i + 1], bull, bear, regime, yBull) ==
      GatherOne(Gather(folds[..i], bull, bear, regime, yBull), folds[i], bull, bear, regime, yBull)
  {
    assert folds[..i + 1][..i] == folds[..i];
  }

  lemma {:induction false} GatherErrSticks(folds: seq<FoldSplit>, bull: seq<FoldResult>, bear: seq<FoldResult>,
                                           regime: seq<int>, yBull: seq<int>, i: nat)
    requires |regime| == |yBull| && WindowsInside(folds, |yBull|)
    requires 0 < i <= |folds|
    requires Gather(folds[..i], bull, bear, regime, yBull).Err?
    ensures Gather(folds, bull, bear, regime, yBull) == Gather(folds[..i], bull, bear, regime, yBull)
    decreases |folds| - i
  {
    if i < |folds| {
      assert folds[..i + 1][..i] == folds[..i];
      GatherErrSticks(folds, bull, bear, regime, yBull, i + 1);
    } else {
      assert folds[..i] == folds;
    }
  }

  /** A fold either run lacks adds nothing and raises nothing. */
  lemma SkipsUncovered(folds: seq<FoldSplit>, bull: seq<FoldResult>, bear: seq<FoldResult>,
                       regime: seq<int>, yBull: seq<int>, i: nat)
    requires |regime| == |yBull| && WindowsInside(folds, |yBull|) && i < |folds|
    requires !Covered(folds[i], bull, bear)
    ensures WindowsInside(folds[..i], |yBull|) && WindowsInside(folds[..i + 1], |yBull|)
    ensures Gather(folds[..i + 1], bull, bear, regime, yBull) == Gather(folds[..i], bull, bear, regime, yBull)
  {
    GatherStep(folds, bull, bear, regime, yBull, i);
  }

  /** Every fold id indexes a recorded fold of a run with n folds. */
  predicate IdsWithin(folds: seq<FoldSplit>, n: nat)
  {
    forall k :: 0 <= k < |folds| ==> 0 <= folds[k].foldId < n
  }

  /** One run's predictions for the given folds, concatenated in fold order. */
  function PredsOf(folds: seq<FoldSplit>, run: seq<FoldResult>): seq<int>
    requires IdsWithin(folds, |run|)
  {
    if folds == [] then [] else PredsOf(folds[..|folds| - 1], run) + run[folds[|folds| - 1].foldId].yPred
  }

  /** When both runs cover every fold and every prediction has one label
      per test row, every fold is used, and each pooled prediction is the
      bull run's prediction for that row where the regime bit is 1 and the
      bear run's elsewhere. */
  lemma {:induction false} GatherCovered(folds: seq<FoldSplit>, bull: seq<FoldResult>, bear: seq<FoldResult>,
                                         regime: seq<int>, yBull: seq<int>)
    requires |regime| == |yBull| && WindowsInside(folds, |yBull|)
    requires IdsWithin(folds, |bull|) && IdsWithin(folds, |bear|)
    requires forall k :: 0 <= k < |folds| ==>
      |bull[folds[k].foldId].yPred| == folds[k].testEnd - folds[k].testStart &&
      |bear[folds[k].foldId].yPred| == folds[k].testEnd - folds[k].testStart
    ensures Gather(folds, bull, bear, regime, yBull).Ok?
    ensures var g := Gather(folds, bull, bear, regime, yBull).value;
      && g.used == |folds|
      && |g.yTrue| == |g.yPred| == |g.regime| == |PredsOf(folds, bull)| == |PredsOf(folds, bear)|
      && forall i :: 0 <= i < |g.yPred| ==>
           g.yPred[i] == if g.regime[i] == 1 then PredsOf(folds, bull)[i] else PredsOf(folds, bear)[i]
  {
    if folds != [] {
      var n := |folds| - 1;
      var init := folds[..n];
      assert WindowsInside(init, |yBull|) && IdsWithin(init, |bull|) && IdsWithin(init, |bear|);
      GatherCovered(init, bull, bear, regime, yBull);
      var f := folds[n];
      var r := regime[f.testStart..f.testEnd];
      GateRule(r, bull[f.foldId].yPred, bear[f.foldId].yPred);
      var prev := Gather(init, bull, bear, regime, yBull).value;
      var g := Gather(folds, bull, bear, regime, yBull).value;
      var c := Where(r, bull[f.foldId].yPred, bear[f.foldId].yPred).value;
      assert g.yPred == prev.yPred + c && g.regime == prev.regime + r;
      assert g.yTrue == prev.yTrue + yBull[f.testStart..f.testEnd];
      var pb, pe := PredsOf(folds, bull), PredsOf(folds, bear);
      assert pb == PredsOf(init, bull) + bull[f.foldId].yPred;
      assert pe == PredsOf(init, bear) + bear[f.foldId].yPred;
      forall i | 0 <= i < |g.yPred|
        ensures g.yPred[i] == if g.regime[i] == 1 then pb[i] else pe[i]
      {
        if i >= |prev.yPred| {
          var j := i - |prev.yPred|;
          assert g.regime[i] == r[j] && g.yPred[i] == c[j];
          assert pb[i] == bull[f.foldId].yPred[j] && pe[i] == bear[f.foldId].yPred[j];
        } else {
          assert g.regime[i] == prev.regime[i] && g.yPred[i] == prev.yPred[i];
          assert pb[i] == PredsOf(init, bull)[i] && pe[i] == PredsOf(init, bear)[i];
        }
      }
    }
  }

  /** Two successful runs on the same number of rows with the same split
      parameters record a fold for every fold of the split, so the
      combination covers every fold. */
  lemma RunsCoverEveryFold(bullTable: map<string, Family>, bullType: string, bullParams: Params, xBull: seq<Row>, yBull: seq<int>,
                           bearTable: map<string, Family>, bearType: string, bearParams: Params, xBear: seq<Row>, yBear: seq<int>,
                           init: int, oos: int, step: int, names: Option<seq<string>>)
    requires Admissible(xBull, init, oos, step) && |yBull| == |xBull| && |xBear| == |xBull| && |yBear| == |xBear|
    requires BacktestSpec(bullTable, bullType, bullParams, xBull, yBull, init, oos, step, names).Ok?
    requires BacktestSpec(bearTable, bearType, bearParams, xBear, yBear, init, oos, step, names).Ok?
    ensures SplitSpec(|yBull|, init, oos, step).Ok?
    ensures IdsWithin(SplitSpec(|yBull|, init, oos, step).value, |BacktestSpec(bullTable, bullType, bullParams, xBull, yBull, init, oos, step, names).value.folds|)
    ensures IdsWithin(SplitSpec(|yBull|, init, oos, step).value, |BacktestSpec(bearTable, bearType, bearParams, xBear, yBear, init, oos, step, names).value.folds|)
  {
    BacktestFolds(bullTable, bullType, bullParams, xBull, yBull, init, oos, step, names);
    BacktestFolds(bearTable, bearType, bearParams, xBear, yBear, init, oos, step, names);
    var folds := SplitSpec(|yBull|, init, oos, step).value;
    forall k | 0 <= k < |folds|
      ensures folds[k].foldId == k
    {
      FoldBounds(|yBull|, init, oos, step, k);
    }
  }

  /** With no fold covered (for example an empty bull run) the pool stays
      empty and the combination raises ValueError. */
  lemma NothingCoveredFails(regime: seq<int>, yBull: seq<int>, bull: seq<FoldResult>, bear: seq<FoldResult>,
                            init: int, oos: int, step: int, names: Option<seq<string>>)
    requires |regime| == |yBull|
    requires Terminates(|yBull|, init, oos, step) && init >= 0 && oos >= 0
    requires SplitSpec(|yBull|, init, oos, step).Ok?
    requires forall k :: 0 <= k < |SplitSpec(|yBull|, init, oos, step).value| ==>
      !Covered(SplitSpec(|yBull|, init, oos, step).value[k], bull, bear)
    ensures CombineSpec(regime, yBull, bull, bear, init, oos, step, names) == Err(ValueError("need at least one array to concatenate"))
  {
    var folds := SplitSpec(|yBull|, init, oos, step).value;
    SplitWindowsInside(|yBull|, init, oos, step);
    NoCoverKeepsEmpty(folds, bull, bear, regime, yBull);
  }

  lemma {:induction false} NoCoverKeepsEmpty(folds: seq<FoldSplit>, bull: seq<FoldResult>, bear: seq<FoldResult>,
                                             regime: seq<int>, yBull: seq<int>)
    requires |regime| == |yBull| && WindowsInside(folds, |yBull|)
    requires forall k :: 0 <= k < |folds| ==> !Covered(folds[k], bull, bear)
    ensures Gather(folds, bull, bear, regime, yBull) == Ok(Pooled([], [], [], 0))
  {
    if folds != [] {
      var n := |folds| - 1;
      assert WindowsInside(folds[..n], |yBull|);
      assert forall k :: 0 <= k < n ==> folds[..n][k] == folds[k];
      NoCoverKeepsEmpty(folds[..n], bull, bear, regime, yBull);
    }
  }
}
