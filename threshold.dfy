/** Probability-threshold search (src/evaluation/threshold_optimizer.py).
    Candidates are scanned in order; a candidate whose predictions are all
    0 or all 1, or whose precision is below a positive floor, is skipped;
    the best score is replaced only on strict improvement. */
module ThresholdOptimizer {
  import opened Wrappers
  import opened Metrics

  /** A model's probability output: one positive-class column, or one row of
      class probabilities per sample. */
  datatype Proba = OneD(p: seq<real>) | TwoD(rows: seq<seq<real>>)

  /** The best score so far; it starts at minus infinity. */
  datatype Score = NegInf | Finite(value: real)

  datatype ThresholdChoice = ThresholdChoice(threshold: real, score: Score)

  /** Column 1 of a 2-D input, or the 1-D input itself; a row without a
      second column is an index error. */
  function PositiveColumn(proba: Proba): (r: Result<seq<real>>)
    ensures proba.OneD? ==> r == Ok(proba.p)
    ensures proba.TwoD? ==>
      (r.Ok? <==> forall i :: 0 <= i < |proba.rows| ==> |proba.rows[i]| >= 2)
    ensures proba.TwoD? && r.Ok? ==>
      |r.value| == |proba.rows| && forall i :: 0 <= i < |r.value| ==> r.value[i] == proba.rows[i][1]
  {
    if proba.OneD? then Ok(proba.p)
    else if forall i :: 0 <= i < |proba.rows| ==> |proba.rows[i]| >= 2 then Ok(SecondColumn(proba.rows))
    else Err(IndexError("index 1 is out of bounds for axis 1"))
  }

  function SecondColumn(rows: seq<seq<real>>): (col: seq<real>)
    requires forall i :: 0 <= i < |rows| ==> |rows[i]| >= 2
    ensures |col| == |rows| && forall i :: 0 <= i < |rows| ==> col[i] == rows[i][1]
  {
    if rows == [] then [] else [rows[0][1]] + SecondColumn(rows[1..])
  }

  /** `(y_proba >= t).astype(int)` on the positive column. */
  function Predict(p: seq<real>, t: real): (yp: seq<int>)
    ensures |yp| == |p|
    ensures forall i :: 0 <= i < |p| ==> (yp[i] == 1 <==> p[i] >= t)
    ensures forall i :: 0 <= i < |p| ==> (yp[i] == 0 <==> p[i] < t)
  {
    seq(|p|, i requires 0 <= i < |p| => if p[i] >= t then 1 else 0)
  }

  /** `apply_threshold`: predictions for a 1-D or 2-D input. */
  function ApplyThreshold(proba: Proba, t: real): (r: Result<seq<int>>)
    ensures r.Ok? <==> PositiveColumn(proba).Ok?
    ensures r.Ok? ==> |r.value| == |PositiveColumn(proba).value|
    ensures r.Ok? ==> forall i :: 0 <= i < |r.value| ==>
      (r.value[i] == 1 <==> PositiveColumn(proba).value[i] >= t) && (r.value[i] == 0 || r.value[i] == 1)
  {
    if PositiveColumn(proba).Err? then Err(PositiveColumn(proba).error)
    else Ok(Predict(PositiveColumn(proba).value, t))
  }

  /** Raising the threshold never turns a 0 prediction into a 1. */
  lemma PredictMonotone(p: seq<real>, t1: real, t2: real)
    requires t1 <= t2
    ensures forall i :: 0 <= i < |p| ==> Predict(p, t2)[i] <= Predict(p, t1)[i]
  {
  }

  /** The default candidates 0.20, 0.21, ..., 0.79. */
  const DefaultGrid: seq<real> := seq(60, i => 0.20 + (i as real) / 100.0)

  lemma DefaultGridShape()
    ensures |DefaultGrid| == 60
    ensures DefaultGrid[0] == 0.20 && DefaultGrid[59] == 0.79
    ensures forall i, j :: 0 <= i < j < 60 ==> DefaultGrid[i] < DefaultGrid[j]
  {
  }

  /** Youden's J: sensitivity + specificity - 1, each ratio 0 on an empty class. */
  function Youden(yt: seq<int>, yp: seq<int>): real
    requires |yt| == |yp|
  {
    var tp := CountPair(yt, yp, 1, 1) as real;
    var tn := CountPair(yt, yp, 0, 0) as real;
    var fp := CountPair(yt, yp, 0, 1) as real;
    var fn := CountPair(yt, yp, 1, 0) as real;
    Ratio(tp, tp + fn) + Ratio(tn, tn + fp) - 1.0
  }

  lemma YoudenBounds(yt: seq<int>, yp: seq<int>)
    requires |yt| == |yp|
    ensures -1.0 <= Youden(yt, yp) <= 1.0
  {
    var tp := CountPair(yt, yp, 1, 1) as real;
    var tn := CountPair(yt, yp, 0, 0) as real;
    var fp := CountPair(yt, yp, 0, 1) as real;
    var fn := CountPair(yt, yp, 1, 0) as real;
    RatioInUnit(tp, tp + fn);
    RatioInUnit(tn, tn + fp);
  }

  /** Youden's J on the library's arrays: unequal lengths broadcast when
      one side has a single element, and otherwise raise. */
  function YoudenScore(yt: seq<int>, yp: seq<int>): (r: Result<real>)
    ensures r.Ok? <==> |yt| == |yp| || |yt| == 1 || |yp| == 1
    ensures |yt| == |yp| ==> r == Ok(Youden(yt, yp))
    ensures r.Ok? ==> -1.0 <= r.value <= 1.0
  {
    if |yt| == |yp| then YoudenBounds(yt, yp); Ok(Youden(yt, yp))
    else if |yt| == 1 then
      var wide := seq(|yp|, _ => yt[0]);
      YoudenBounds(wide, yp);
      Ok(Youden(wide, yp))
    else if |yp| == 1 then
      var wide := seq(|yt|, _ => yp[0]);
      YoudenBounds(yt, wide);
      Ok(Youden(yt, wide))
    else Err(ValueError("operands could not be broadcast together"))
  }

  /** The objective named `metric`: the library's binary F1 (also for
      "precision_recall"), kappa or macro F1, with their errors, Youden's J
      from the counts, or ValueError for an unknown name. */
  function MetricScore(metric: string, yt: seq<int>, yp: seq<int>): Result<real>
  {
    if metric == "f1" || metric == "precision_recall" then MetricValue("f1_binary", yt, yp)
    else if metric == "kappa" then MetricValue("cohen_kappa", yt, yp)
    else if metric == "youden" then YoudenScore(yt, yp)
    else if metric == "f1_macro" then MetricValue("f1_macro", yt, yp)
    else Err(ValueError("unknown optimisation metric"))
  }

  predicate KnownMetric(metric: string)
  {
    metric in {"f1", "kappa", "youden", "precision_recall", "f1_macro"}
  }

  /** The objective fails exactly on an unknown name, on unequal lengths
      (except where Youden's arrays broadcast), and on a non-binary target
      for the binary F1 objectives. */
  lemma MetricScoreFailsIff(metric: string, yt: seq<int>, yp: seq<int>)
    ensures MetricScore(metric, yt, yp).Err? <==>
      || !KnownMetric(metric)
      || (metric == "youden" && |yt| != |yp| && |yt| != 1 && |yp| != 1)
      || (metric != "youden" && |yt| != |yp|)
      || ((metric == "f1" || metric == "precision_recall") && |yt| == |yp| && !BinaryTarget(yt, yp))
  {
  }

  /** The precision floor: passes (true) or not (false) when the floor is
      positive; the library's precision may raise. */
  function PrecisionFloor(yt: seq<int>, yp: seq<int>, minPrecision: real): (r: Result<bool>)
    ensures minPrecision <= 0.0 ==> r == Ok(true)
    ensures minPrecision > 0.0 ==> (r.Ok? <==> MetricValue("precision_binary", yt, yp).Ok?)
    ensures minPrecision > 0.0 && r.Ok? ==> (r.value <==> MetricValue("precision_binary", yt, yp).value >= minPrecision)
  {
    if minPrecision <= 0.0 then Ok(true)
    else
      var precision := MetricValue("precision_binary", yt, yp);
      if precision.Err? then Err(precision.error) else Ok(precision.value >= minPrecision)
  }

  /** A candidate survives the filters: its predictions are not all equal,
      and their precision meets a positive floor. */
  predicate Qualifies(yt: seq<int>, p: seq<real>, minPrecision: real, t: real)
  {
    !Degenerate(Predict(p, t)) && PrecisionFloor(yt, Predict(p, t), minPrecision) == Ok(true)
  }

  /** All predictions 0 or all 1 (their sum is 0 or the length). */
  predicate Degenerate(yp: seq<int>)
  {
    Count(yp, 1) == 0 || Count(yp, 1) == |yp|
  }

  predicate Better(s: real, best: Score)
  {
    match best
    case NegInf => true
    case Finite(b) => s > b
  }

  /** What happens to one candidate: skipped by a filter, failing on an
      unknown metric, or scored. */
  datatype Outcome = Skipped | Failed(error: Error) | Scored(value: real)

  function Assess(yt: seq<int>, p: seq<real>, metric: string, minPrecision: real, t: real): (o: Outcome)
    ensures o.Skipped? <==> Degenerate(Predict(p, t)) || PrecisionFloor(yt, Predict(p, t), minPrecision) == Ok(false)
    ensures o.Failed? <==>
      && !Degenerate(Predict(p, t))
      && (|| PrecisionFloor(yt, Predict(p, t), minPrecision).Err?
          || (Qualifies(yt, p, minPrecision, t) && MetricScore(metric, yt, Predict(p, t)).Err?))
    ensures o.Scored? ==> MetricScore(metric, yt, Predict(p, t)) == Ok(o.value)
  {
    var yp := Predict(p, t);
    if Degenerate(yp) then Skipped
    else if PrecisionFloor(yt, yp, minPrecision).Err? then Failed(PrecisionFloor(yt, yp, minPrecision).error)
    else if !PrecisionFloor(yt, yp, minPrecision).value then Skipped
    else if MetricScore(metric, yt, yp).Err? then Failed(MetricScore(metric, yt, yp).error)
    else Scored(MetricScore(metric, yt, yp).value)
  }

  /** The best-so-far update for one candidate. */
  function Step(prev: Result<ThresholdChoice>, t: real, o: Outcome): Result<ThresholdChoice>
  {
    if prev.Err? || o.Skipped? then prev
    else if o.Failed? then Err(o.error)
    else if Better(o.value, prev.value.score) then Ok(ThresholdChoice(t, Finite(o.value)))
    else prev
  }

  /** The state after scanning the candidates `ts` in order. */
  function Scan(assess: real -> Outcome, ts: seq<real>): Result<ThresholdChoice>
  {
    if ts == [] then Ok(ThresholdChoice(0.5, NegInf))
    else Step(Scan(assess, ts[..|ts| - 1]), ts[|ts| - 1], assess(ts[|ts| - 1]))
  }

  lemma ScanStep(assess: real -> Outcome, ts: seq<real>, i: nat)
    requires i < |ts|
    ensures Scan(assess, ts[..i + 1]) == Step(Scan(assess, ts[..i]), ts[i], assess(ts[i]))
  {
    assert ts[..i + 1][..i] == ts[..i];
  }

  lemma {:induction false} ScanErrSticks(assess: real -> Outcome, ts: seq<real>, i: nat)
    requires 0 < i <= |ts|
    requires Scan(assess, ts[..i]).Err?
    ensures Scan(assess, ts) == Scan(assess, ts[..i])
    decreases |ts| - i
  {
    if i < |ts| {
      ScanStep(assess, ts, i);
      ScanErrSticks(assess, ts, i + 1);
    } else {
      assert ts[..i] == ts;
    }
  }

  /** `optimize_threshold`: the candidate loop, updating the best threshold
      and score as it goes. */
  method OptimizeThreshold(yt: seq<int>, proba: Proba, metric: string, thresholds: Option<seq<real>>, minPrecision: real)
    returns (r: Result<ThresholdChoice>)
    ensures PositiveColumn(proba).Err? ==> r == Err(PositiveColumn(proba).error)
    ensures PositiveColumn(proba).Ok? ==>
      r == Scan(t => Assess(yt, PositiveColumn(proba).value, metric, minPrecision, t), thresholds.GetOr(DefaultGrid))
  {
    var column := PositiveColumn(proba);
    if column.Err? {
      return Err(column.error);
    }
    var p := column.value;
    var assess := t => Assess(yt, p, metric, minPrecision, t);
    var ts := thresholds.GetOr(DefaultGrid);
    var bestThreshold := 0.5;
    var bestScore := NegInf;
    for i := 0 to |ts|
      invariant Scan(assess, ts[..i]) == Ok(ThresholdChoice(bestThreshold, bestScore))
    {
      ScanStep(assess, ts, i);
      var t := ts[i];
      var yp := Predict(p, t);
      var positives := Count(yp, 1);
      if positives == 0 || positives == |yp| {
        continue;
      }
      if minPrecision > 0.0 {
        var precision := MetricValue("precision_binary", yt, yp);
        if precision.Err? {
          r := Err(precision.error);
          ScanErrSticks(assess, ts, i + 1);
          return;
        }
        if precision.value < minPrecision {
          continue;
        }
      }
      var score := MetricScore(metric, yt, yp);
      if score.Err? {
        r := Err(score.error);
        ScanErrSticks(assess, ts, i + 1);
        return;
      }
      if Better(score.value, bestScore) {
        bestScore := Finite(score.value);
        bestThreshold := t;
      }
    }
    assert ts[..|ts|] == ts;
    r := Ok(ThresholdChoice(bestThreshold, bestScore));
  }

  /** The scan fails exactly when some candidate fails; it ends at
      (0.5, minus infinity) exactly when every candidate is skipped. */
  lemma {:induction false} ScanOutcome(assess: real -> Outcome, ts: seq<real>)
    ensures Scan(assess, ts).Err? <==> exists k :: 0 <= k < |ts| && assess(ts[k]).Failed?
    ensures (forall k :: 0 <= k < |ts| ==> assess(ts[k]).Skipped?) <==>
      Scan(assess, ts) == Ok(ThresholdChoice(0.5, NegInf))
    ensures Scan(assess, ts).Ok? && Scan(assess, ts).value.score.NegInf? ==>
      Scan(assess, ts).value.threshold == 0.5
  {
    if ts != [] {
      var n := |ts| - 1;
      var init := ts[..n];
      ScanOutcome(assess, init);
      assert forall k :: 0 <= k < n ==> init[k] == ts[k];
      if exists k :: 0 <= k < n && assess(init[k]).Failed? {
        var k :| 0 <= k < n && assess(init[k]).Failed?;
        assert assess(ts[k]).Failed?;
      }
      if exists k :: 0 <= k < |ts| && assess(ts[k]).Failed? {
        var k :| 0 <= k < |ts| && assess(ts[k]).Failed?;
        if k < n {
          assert assess(init[k]).Failed?;
        }
      }
      if exists k :: 0 <= k < n && !assess(init[k]).Skipped? {
        var k :| 0 <= k < n && !assess(init[k]).Skipped?;
        assert !assess(ts[k]).Skipped?;
      }
    }
  }

  /** Candidate k of `ts` is scored v; every scored candidate scores at most
      v, and every scored candidate before k scores strictly less. */
  predicate EarliestMaximum(assess: real -> Outcome, ts: seq<real>, k: nat, v: real)
  {
    && k < |ts| && assess(ts[k]) == Scored(v)
    && (forall j :: 0 <= j < |ts| && assess(ts[j]).Scored? ==> assess(ts[j]).value <= v)
    && (forall j :: 0 <= j < k && assess(ts[j]).Scored? ==> assess(ts[j]).value < v)
  }

  /** The chosen threshold is the EARLIEST candidate reaching the maximum
      score among the candidates that are scored. */
  lemma {:induction false} BestIsEarliestMaximum(assess: real -> Outcome, ts: seq<real>) returns (k: nat)
    requires Scan(assess, ts).Ok? && Scan(assess, ts).value.score.Finite?
    ensures EarliestMaximum(assess, ts, k, Scan(assess, ts).value.score.value)
    ensures Scan(assess, ts).value.threshold == ts[k]
  {
    var n := |ts| - 1;
    var init := ts[..n];
    var prev := Scan(assess, init);
    var best := Scan(assess, ts).value;
    assert forall j :: 0 <= j < n ==> init[j] == ts[j];
    assert Scan(assess, ts) == Step(prev, ts[n], assess(ts[n]));
    var v := best.score.value;
    if prev.value.score.Finite? {
      var k0 := BestIsEarliestMaximum(assess, init);
      var b := prev.value.score.value;
      if best == prev.value {
        k := k0;
        forall j | 0 <= j < |ts| && assess(ts[j]).Scored?
          ensures assess(ts[j]).value <= v
        {
          if j < n {
            assert assess(init[j]).Scored?;
          }
        }
        forall j | 0 <= j < k && assess(ts[j]).Scored?
          ensures assess(ts[j]).value < v
        {
          assert assess(init[j]).Scored?;
        }
      } else {
        k := n;
        forall j | 0 <= j < |ts| && assess(ts[j]).Scored?
          ensures assess(ts[j]).value <= v
        {
          if j < n {
            assert assess(init[j]).Scored?;
          }
        }
      }
    } else {
      ScanOutcome(assess, init);
      k := n;
      forall j | 0 <= j < n
        ensures assess(ts[j]).Skipped?
      {
        assert assess(init[j]).Skipped?;
      }
    }
  }

  /** A threshold is scored exactly when it qualifies and its objective
      succeeds, and its score is the objective on its predictions. */
  lemma AssessMeaning(yt: seq<int>, p: seq<real>, metric: string, minPrecision: real, t: real)
    ensures Assess(yt, p, metric, minPrecision, t).Scored? <==>
      Qualifies(yt, p, minPrecision, t) && MetricScore(metric, yt, Predict(p, t)).Ok?
    ensures Assess(yt, p, metric, minPrecision, t).Scored? ==>
      Assess(yt, p, metric, minPrecision, t).value == MetricScore(metric, yt, Predict(p, t)).value
  {
  }

  /** With 0/1 truth as long as the probabilities, as the optimizer's
      callers pass, no library call raises: a candidate fails only on an
      unknown metric, and a qualifying one is scored exactly when the
      metric is known. */
  lemma ZeroOneTruthFailsOnlyOnUnknownMetric(yt: seq<int>, p: seq<real>, metric: string, minPrecision: real, t: real)
    requires |yt| == |p|
    requires forall k :: 0 <= k < |yt| ==> yt[k] == 0 || yt[k] == 1
    ensures PrecisionFloor(yt, Predict(p, t), minPrecision).Ok?
    ensures Assess(yt, p, metric, minPrecision, t).Failed? <==> Qualifies(yt, p, minPrecision, t) && !KnownMetric(metric)
    ensures Assess(yt, p, metric, minPrecision, t).Scored? <==> Qualifies(yt, p, minPrecision, t) && KnownMetric(metric)
  {
    ZeroOneIsBinaryTarget(yt, Predict(p, t));
    MetricScoreFailsIff(metric, yt, Predict(p, t));
  }

  /** Probabilities and truth of different lengths: any candidate that is
      not skipped as degenerate raises, unless Youden's arrays broadcast. */
  lemma MismatchedLengthsRaise(yt: seq<int>, p: seq<real>, metric: string, minPrecision: real, t: real)
    requires |yt| != |p| && |yt| != 1
    requires !Degenerate(Predict(p, t))
    ensures Assess(yt, p, metric, minPrecision, t).Failed?
  {
    MetricScoreFailsIff(metric, yt, Predict(p, t));
  }
}
