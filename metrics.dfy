/** Classification metrics (src/evaluation/metrics.py).
    Every metric is defined from counts over the label sequences; a ratio
    whose denominator is zero is 0, the library's `zero_division=0` policy.
    The class set is the sorted union of the labels in `y_true` and
    `y_pred`, as the library computes it. */
module Metrics {
  import opened Wrappers

  // ---------------------------------------------------------------------
  // Counting

  /** Number of occurrences of `v` in `s`. */
  function Count(s: seq<int>, v: int): (c: nat)
    ensures c <= |s|
  {
    if s == [] then 0 else (if s[0] == v then 1 else 0) + Count(s[1..], v)
  }

  /** Number of positions k with yt[k] == a and yp[k] == b. */
  function CountPair(yt: seq<int>, yp: seq<int>, a: int, b: int): (c: nat)
    requires |yt| == |yp|
    ensures c <= |yt|
  {
    if yt == [] then 0
    else (if yt[0] == a && yp[0] == b then 1 else 0) + CountPair(yt[1..], yp[1..], a, b)
  }

  /** Number of positions where the two sequences agree. */
  function Agree(yt: seq<int>, yp: seq<int>): (c: nat)
    requires |yt| == |yp|
    ensures c <= |yt|
  {
    if yt == [] then 0 else (if yt[0] == yp[0] then 1 else 0) + Agree(yt[1..], yp[1..])
  }

  /** `num / den`, or 0 when the denominator is 0. */
  function Ratio(num: real, den: real): real
  {
    if den == 0.0 then 0.0 else num / den
  }

  // ---------------------------------------------------------------------
  // The class set: the sorted union of the labels

  predicate StrictlySorted(s: seq<int>)
  {
    forall i, j :: 0 <= i < j < |s| ==> s[i] < s[j]
  }

  function Insert(x: int, s: seq<int>): (r: seq<int>)
    requires StrictlySorted(s)
    ensures StrictlySorted(r)
    ensures forall y :: y in r <==> y == x || y in s
  {
    if s == [] then [x]
    else if x < s[0] then [x] + s
    else if x == s[0] then s
    else
      var t := Insert(x, s[1..]);
      assert forall y :: y in t ==> s[0] < y;
      ConsSorted(s[0], t);
      [s[0]] + t
  }

  lemma ConsSorted(a: int, t: seq<int>)
    requires StrictlySorted(t)
    requires forall y :: y in t ==> a < y
    ensures StrictlySorted([a] + t)
  {
    var u := [a] + t;
    forall i, j | 0 <= i < j < |u|
      ensures u[i] < u[j]
    {
      assert u[j] == t[j - 1];
      if i == 0 {
        assert t[j - 1] in t;
      } else {
        assert u[i] == t[i - 1];
      }
    }
  }

  /** The distinct values of `s` in increasing order. */
  function Distinct(s: seq<int>): (r: seq<int>)
    ensures StrictlySorted(r)
    ensures forall y :: y in r <==> y in s
  {
    if s == [] then [] else Insert(s[0], Distinct(s[1..]))
  }

  /** The classes the library scores: the sorted union of both label sequences. */
  function Classes(yt: seq<int>, yp: seq<int>): (r: seq<int>)
    ensures StrictlySorted(r)
    ensures forall y :: y in r <==> y in yt || y in yp
  {
    Distinct(yt + yp)
  }

  lemma {:induction false} SortedLengthIsCardinality(s: seq<int>)
    requires StrictlySorted(s)
    ensures |set x | x in s| == |s|
  {
    if s != [] {
      SortedLengthIsCardinality(s[1..]);
      assert (set x | x in s) == {s[0]} + (set x | x in s[1..]);
      assert s[0] !in (set x | x in s[1..]);
    }
  }

  // ---------------------------------------------------------------------
  // Per-class scores and their averages

  datatype ScoreKind = PrecisionScore | RecallScore | F1Score

  /** Precision, recall or F1 of class `c` (one-vs-rest). */
  function ClassScore(kind: ScoreKind, yt: seq<int>, yp: seq<int>, c: int): real
    requires |yt| == |yp|
  {
    var tp := CountPair(yt, yp, c, c) as real;
    match kind
    case PrecisionScore => Ratio(tp, Count(yp, c) as real)
    case RecallScore => Ratio(tp, Count(yt, c) as real)
    case F1Score => Ratio(2.0 * tp, (Count(yp, c) + Count(yt, c)) as real)
  }

  function SumScores(kind: ScoreKind, yt: seq<int>, yp: seq<int>, cs: seq<int>): real
    requires |yt| == |yp|
  {
    if cs == [] then 0.0 else ClassScore(kind, yt, yp, cs[0]) + SumScores(kind, yt, yp, cs[1..])
  }

  /** Sum over the classes of support times F1 (the weighted average's numerator). */
  function SumWeightedF1(yt: seq<int>, yp: seq<int>, cs: seq<int>): real
    requires |yt| == |yp|
  {
    if cs == [] then 0.0
    else WeightedF1Term(yt, yp, cs[0]) + SumWeightedF1(yt, yp, cs[1..])
  }

  /** F1 of class c weighted by its support. */
  function WeightedF1Term(yt: seq<int>, yp: seq<int>, c: int): (t: real)
    requires |yt| == |yp|
    ensures 0.0 <= t <= Count(yt, c) as real
  {
    var w := Count(yt, c) as real;
    var x := ClassScore(F1Score, yt, yp, c);
    ClassScoreInUnit(F1Score, yt, yp, c);
    WeightedTermBounded(w, x);
    w * x
  }

  /** Sum over the classes of the supports. */
  function SumCounts(s: seq<int>, cs: seq<int>): nat
  {
    if cs == [] then 0 else Count(s, cs[0]) + SumCounts(s, cs[1..])
  }

  /** Sum over the classes of (predicted count) times (true count). */
  function SumChance(yt: seq<int>, yp: seq<int>, cs: seq<int>): nat
  {
    if cs == [] then 0 else Count(yp, cs[0]) * Count(yt, cs[0]) + SumChance(yt, yp, cs[1..])
  }

  function Accuracy(yt: seq<int>, yp: seq<int>): real
    requires |yt| == |yp|
  {
    Ratio(Agree(yt, yp) as real, |yt| as real)
  }

  function MacroAverage(kind: ScoreKind, yt: seq<int>, yp: seq<int>): real
    requires |yt| == |yp|
  {
    var cs := Classes(yt, yp);
    Ratio(SumScores(kind, yt, yp, cs), |cs| as real)
  }

  function WeightedF1(yt: seq<int>, yp: seq<int>): real
    requires |yt| == |yp|
  {
    var cs := Classes(yt, yp);
    Ratio(SumWeightedF1(yt, yp, cs), SumCounts(yt, cs) as real)
  }

  /** Binary averaging scores the positive label 1 only. */
  function BinaryScore(kind: ScoreKind, yt: seq<int>, yp: seq<int>): real
    requires |yt| == |yp|
  {
    ClassScore(kind, yt, yp, 1)
  }

  /** Cohen's kappa from the counts: 1 - observed disagreement / disagreement
      expected by chance, where n² times the chance agreement sums, over the
      classes, predicted count times true count; undefined, and 0 here, on
      empty input or when chance agreement is certain. */
  function Kappa(yt: seq<int>, yp: seq<int>): (k: real)
    requires |yt| == |yp|
    ensures var n := |yt| as real;
      n == 0.0 || SumChance(yt, yp, Classes(yt, yp)) as real == n * n ==> k == 0.0
  {
    var n := |yt| as real;
    KappaOf(n, Agree(yt, yp) as real, n * n - SumChance(yt, yp, Classes(yt, yp)) as real)
  }

  /** Kappa from the sample count, the agreements and n² times the chance
      disagreement; undefined (0 here) when chance disagreement is 0. */
  function KappaOf(n: real, agree: real, expected: real): real
  {
    if expected == 0.0 then 0.0 else 1.0 - (n - agree) * n / expected
  }

  /** Binary averaging is accepted only when at most two classes occur and,
      when two occur, one of them is the positive label 1. */
  predicate BinaryTarget(yt: seq<int>, yp: seq<int>)
  {
    var cs := Classes(yt, yp);
    |cs| <= 2 && (|cs| == 2 ==> 1 in cs)
  }

  // ---------------------------------------------------------------------
  // Dispatch by name

  const AllMetricNames: seq<string> := [
    "accuracy", "f1_macro", "f1_weighted", "f1_binary", "precision_macro",
    "precision_binary", "recall_macro", "recall_binary", "cohen_kappa"]

  predicate IsBinaryMetric(name: string)
  {
    name == "f1_binary" || name == "precision_binary" || name == "recall_binary"
  }

  /** The value of one known metric, or the error the library raises:
      `accuracy_score`, `f1_score` (macro, weighted, binary),
      `precision_score` and `recall_score` (macro, binary) with zero
      division giving 0, and `cohen_kappa_score`. Unequal lengths raise, and
      a binary average raises on a target that is not binary. */
  function MetricValue(name: string, yt: seq<int>, yp: seq<int>): (r: Result<real>)
    requires name in AllMetricNames
    ensures r.Err? <==> |yt| != |yp| || (IsBinaryMetric(name) && !BinaryTarget(yt, yp))
  {
    if |yt| != |yp| then Err(ValueError("inconsistent numbers of samples"))
    else if IsBinaryMetric(name) && !BinaryTarget(yt, yp) then Err(ValueError("target is multiclass but average='binary'"))
    else if name == "accuracy" then Ok(Accuracy(yt, yp))
    else if name == "f1_macro" then Ok(MacroAverage(F1Score, yt, yp))
    else if name == "f1_weighted" then Ok(WeightedF1(yt, yp))
    else if name == "f1_binary" then Ok(BinaryScore(F1Score, yt, yp))
    else if name == "precision_macro" then Ok(MacroAverage(PrecisionScore, yt, yp))
    else if name == "precision_binary" then Ok(BinaryScore(PrecisionScore, yt, yp))
    else if name == "recall_macro" then Ok(MacroAverage(RecallScore, yt, yp))
    else if name == "recall_binary" then Ok(BinaryScore(RecallScore, yt, yp))
    else Ok(Kappa(yt, yp))
  }

  /** The requested names: all nine when none are given. */
  function Requested(names: Option<seq<string>>): seq<string>
  {
    names.GetOr(AllMetricNames)
  }

  /** The result dictionary after the first |names| names have been handled. */
  function MetricsOf(yt: seq<int>, yp: seq<int>, names: seq<string>): Result<map<string, real>>
  {
    if names == [] then Ok(map[])
    else
      var prev := MetricsOf(yt, yp, names[..|names| - 1]);
      var name := names[|names| - 1];
      if prev.Err? || name !in AllMetricNames then prev
      else
        match MetricValue(name, yt, yp)
        case Err(e) => Err(e)
        case Ok(v) => Ok(prev.value[name := v])
  }

  /** One more name extends the result by that name's metric, or fails. */
  lemma MetricsStep(yt: seq<int>, yp: seq<int>, names: seq<string>, i: nat)
    requires i < |names|
    ensures MetricsOf(yt, yp, names[..i + 1]) ==
      var prev := MetricsOf(yt, yp, names[..i]);
      if prev.Err? || names[i] !in AllMetricNames then prev
      else if MetricValue(names[i], yt, yp).Err? then Err(MetricValue(names[i], yt, yp).error)
      else Ok(prev.value[names[i] := MetricValue(names[i], yt, yp).value])
  {
    assert names[..i + 1][..i] == names[..i];
  }

  /** `compute_metrics`: fills the result dictionary in a loop over the
      requested names, skipping unknown ones. */
  method ComputeMetrics(yt: seq<int>, yp: seq<int>, names: Option<seq<string>>) returns (r: Result<map<string, real>>)
    ensures r == MetricsOf(yt, yp, Requested(names))
  {
    var todo := Requested(names);
    var results: map<string, real> := map[];
    for i := 0 to |todo|
      invariant MetricsOf(yt, yp, todo[..i]) == Ok(results)
    {
      MetricsStep(yt, yp, todo, i);
      var name := todo[i];
      if name in AllMetricNames {
        var v := MetricValue(name, yt, yp);
        if v.Err? {
          r := Err(v.error);
          MetricsErrSticks(yt, yp, todo, i + 1);
          assert todo[..|todo|] == todo;
          return;
        }
        results := results[name := v.value];
      }
    }
    assert todo[..|todo|] == todo;
    r := Ok(results);
  }

  /** Once a metric fails, the whole dictionary fails with that error. */
  lemma {:induction false} MetricsErrSticks(yt: seq<int>, yp: seq<int>, names: seq<string>, i: nat)
    requires 0 < i <= |names|
    requires MetricsOf(yt, yp, names[..i]).Err?
    ensures MetricsOf(yt, yp, names) == MetricsOf(yt, yp, names[..i])
    decreases |names| - i
  {
    if i < |names| {
      assert names[..i + 1][..i] == names[..i];
      MetricsErrSticks(yt, yp, names, i + 1);
    } else {
      assert names[..i] == names;
    }
  }

  /** The keys of a successful result are exactly the requested names that
      are known, and each value is that metric's definition. */
  lemma {:induction false} MetricsKeysAndValues(yt: seq<int>, yp: seq<int>, names: seq<string>)
    requires MetricsOf(yt, yp, names).Ok?
    ensures MetricsOf(yt, yp, names).value.Keys == set n | n in names && n in AllMetricNames
    ensures forall n :: n in MetricsOf(yt, yp, names).value ==>
      n in AllMetricNames && MetricValue(n, yt, yp) == Ok(MetricsOf(yt, yp, names).value[n])
  {
    if names != [] {
      var init := names[..|names| - 1];
      MetricsKeysAndValues(yt, yp, init);
      assert names == init + [names[|names| - 1]];
    }
  }

  /** The result fails exactly when some requested known metric fails: the
      samples differ in number, or a binary metric meets a multiclass target.
      Unknown names never cause a failure. */
  lemma {:induction false} MetricsFailIff(yt: seq<int>, yp: seq<int>, names: seq<string>)
    ensures MetricsOf(yt, yp, names).Err? <==>
      exists n :: n in names && n in AllMetricNames && MetricValue(n, yt, yp).Err?
  {
    if names != [] {
      var init := names[..|names| - 1];
      MetricsFailIff(yt, yp, init);
      assert names == init + [names[|names| - 1]];
    }
  }

  /** With no names requested, all nine metrics are in a successful result. */
  lemma DefaultComputesAllNine(yt: seq<int>, yp: seq<int>)
    requires MetricsOf(yt, yp, Requested(None)).Ok?
    ensures MetricsOf(yt, yp, Requested(None)).value.Keys == set n | n in AllMetricNames
  {
    MetricsKeysAndValues(yt, yp, AllMetricNames);
  }

  /** Equal-length labels over at most the classes 0 and 1 are a binary target. */
  lemma ZeroOneIsBinaryTarget(yt: seq<int>, yp: seq<int>)
    requires forall k :: 0 <= k < |yt| ==> yt[k] == 0 || yt[k] == 1
    requires forall k :: 0 <= k < |yp| ==> yp[k] == 0 || yp[k] == 1
    ensures BinaryTarget(yt, yp)
  {
    var cs := Classes(yt, yp);
    assert forall y :: y in cs ==> y == 0 || y == 1;
    if cs != [] {
      SortedSpread(cs);
      assert cs[0] in cs && cs[|cs| - 1] in cs;
    }
  }

  lemma {:induction false} SortedSpread(s: seq<int>)
    requires StrictlySorted(s) && |s| > 0
    ensures s[|s| - 1] >= s[0] + |s| - 1
  {
    if |s| > 1 {
      SortedSpread(s[1..]);
    }
  }

  // ---------------------------------------------------------------------
  // Bounds

  lemma {:induction false} TruePositivesBounded(yt: seq<int>, yp: seq<int>, c: int)
    requires |yt| == |yp|
    ensures CountPair(yt, yp, c, c) <= Count(yp, c)
    ensures CountPair(yt, yp, c, c) <= Count(yt, c)
  {
    if yt != [] {
      TruePositivesBounded(yt[1..], yp[1..], c);
    }
  }

  lemma RatioInUnit(num: real, den: real)
    requires 0.0 <= num <= den
    ensures 0.0 <= Ratio(num, den) <= 1.0
  {
    if den != 0.0 {
      assert den > 0.0;
      var q := num / den;
      assert q * den == num;
      assert q * den <= 1.0 * den;
      assert (1.0 - q) * den >= 0.0;
    }
  }

  /** Each per-class precision, recall and F1 lies in [0, 1]. */
  lemma ClassScoreInUnit(kind: ScoreKind, yt: seq<int>, yp: seq<int>, c: int)
    requires |yt| == |yp|
    ensures 0.0 <= ClassScore(kind, yt, yp, c) <= 1.0
  {
    TruePositivesBounded(yt, yp, c);
    var tp := CountPair(yt, yp, c, c) as real;
    match kind
    case PrecisionScore => RatioInUnit(tp, Count(yp, c) as real);
    case RecallScore => RatioInUnit(tp, Count(yt, c) as real);
    case F1Score => RatioInUnit(2.0 * tp, (Count(yp, c) + Count(yt, c)) as real);
  }

  lemma {:induction false} SumScoresBounded(kind: ScoreKind, yt: seq<int>, yp: seq<int>, cs: seq<int>)
    requires |yt| == |yp|
    ensures 0.0 <= SumScores(kind, yt, yp, cs) <= |cs| as real
  {
    if cs != [] {
      ClassScoreInUnit(kind, yt, yp, cs[0]);
      SumScoresBounded(kind, yt, yp, cs[1..]);
    }
  }

  /** Accuracy and every macro or binary precision, recall and F1 lie in [0, 1]. */
  lemma ScoresInUnit(kind: ScoreKind, yt: seq<int>, yp: seq<int>)
    requires |yt| == |yp|
    ensures 0.0 <= Accuracy(yt, yp) <= 1.0
    ensures 0.0 <= MacroAverage(kind, yt, yp) <= 1.0
    ensures 0.0 <= BinaryScore(kind, yt, yp) <= 1.0
  {
    RatioInUnit(Agree(yt, yp) as real, |yt| as real);
    var cs := Classes(yt, yp);
    SumScoresBounded(kind, yt, yp, cs);
    RatioInUnit(SumScores(kind, yt, yp, cs), |cs| as real);
    ClassScoreInUnit(kind, yt, yp, 1);
  }

  /** Weighted F1 lies in [0, 1]: each class's F1 is weighted by its support. */
  lemma {:induction false} SumWeightedF1Bounded(yt: seq<int>, yp: seq<int>, cs: seq<int>)
    requires |yt| == |yp|
    ensures 0.0 <= SumWeightedF1(yt, yp, cs) <= SumCounts(yt, cs) as real
  {
    if cs != [] {
      SumWeightedF1Bounded(yt, yp, cs[1..]);
    }
  }

  lemma WeightedTermBounded(w: real, x: real)
    requires 0.0 <= w && 0.0 <= x <= 1.0
    ensures 0.0 <= w * x <= w
  {
    assert w * (1.0 - x) >= 0.0;
  }

  /** Which score each name selects when it does not raise. */
  lemma MetricValueDispatch(yt: seq<int>, yp: seq<int>)
    requires |yt| == |yp|
    ensures MetricValue("accuracy", yt, yp) == Ok(Accuracy(yt, yp))
    ensures MetricValue("f1_macro", yt, yp) == Ok(MacroAverage(F1Score, yt, yp))
    ensures MetricValue("f1_weighted", yt, yp) == Ok(WeightedF1(yt, yp))
    ensures MetricValue("precision_macro", yt, yp) == Ok(MacroAverage(PrecisionScore, yt, yp))
    ensures MetricValue("recall_macro", yt, yp) == Ok(MacroAverage(RecallScore, yt, yp))
    ensures MetricValue("cohen_kappa", yt, yp) == Ok(Kappa(yt, yp))
    ensures BinaryTarget(yt, yp) ==>
      && MetricValue("f1_binary", yt, yp) == Ok(BinaryScore(F1Score, yt, yp))
      && MetricValue("precision_binary", yt, yp) == Ok(BinaryScore(PrecisionScore, yt, yp))
      && MetricValue("recall_binary", yt, yp) == Ok(BinaryScore(RecallScore, yt, yp))
  {
  }

  /** Every metric other than kappa lies in [0, 1]. */
  lemma MetricValueInUnit(name: string, yt: seq<int>, yp: seq<int>)
    requires name in AllMetricNames && name != "cohen_kappa"
    requires MetricValue(name, yt, yp).Ok?
    ensures 0.0 <= MetricValue(name, yt, yp).value <= 1.0
  {
    ScoresInUnit(F1Score, yt, yp);
    ScoresInUnit(PrecisionScore, yt, yp);
    ScoresInUnit(RecallScore, yt, yp);
    var cs := Classes(yt, yp);
    SumWeightedF1Bounded(yt, yp, cs);
    RatioInUnit(SumWeightedF1(yt, yp, cs), SumCounts(yt, cs) as real);
  }

  /** A classifier that never predicts the positive class gets binary
      precision, recall and F1 of 0, not an error. */
  lemma NeverPositiveScoresZero(yt: seq<int>, yp: seq<int>)
    requires |yt| == |yp|
    requires 1 !in yp
    ensures BinaryScore(PrecisionScore, yt, yp) == 0.0
    ensures BinaryScore(RecallScore, yt, yp) == 0.0
    ensures BinaryScore(F1Score, yt, yp) == 0.0
  {
    NotInCountZero(yp, 1);
    TruePositivesBounded(yt, yp, 1);
  }

  lemma {:induction false} NotInCountZero(s: seq<int>, v: int)
    requires v !in s
    ensures Count(s, v) == 0
  {
    if s != [] {
      NotInCountZero(s[1..], v);
    }
  }

  /** Accuracy is 1 exactly when the predictions equal the truth (on
      non-empty input). */
  lemma {:induction false} AgreeAllIffEqual(yt: seq<int>, yp: seq<int>)
    requires |yt| == |yp|
    ensures Agree(yt, yp) == |yt| <==> yt == yp
  {
    if yt != [] {
      AgreeAllIffEqual(yt[1..], yp[1..]);
      if yt[0] == yp[0] && yt[1..] == yp[1..] {
        assert yt == [yt[0]] + yt[1..];
        assert yp == [yp[0]] + yp[1..];
      }
    }
  }

  lemma AccuracyOneIffEqual(yt: seq<int>, yp: seq<int>)
    requires |yt| == |yp| && |yt| > 0
    ensures Accuracy(yt, yp) == 1.0 <==> yt == yp
  {
    AgreeAllIffEqual(yt, yp);
  }

  // ---------------------------------------------------------------------
  // Classification report names and the confusion matrix

  /** The report's class names for a binary target ("negative", "positive"). */
  const BinaryTargetNames: seq<string> := ["负例(0)", "正例(1)"]

  /** The report's class names for the three reversal classes
      ("top reversal", "normal", "bottom reversal"). */
  const ReversalTargetNames: seq<string> := ["顶部反转", "正常", "底部反转"]

  /** The binary names when at most two distinct labels occur, else the
      three reversal names. */
  function ReportTargetNames(yt: seq<int>, yp: seq<int>): (names: seq<string>)
    ensures names == BinaryTargetNames <==> |set x | x in yt + yp| <= 2
    ensures names == ReversalTargetNames <==> |set x | x in yt + yp| > 2
    ensures |names| == 2 || |names| == 3
  {
    var cs := Classes(yt, yp);
    SortedLengthIsCardinality(cs);
    assert (set x | x in cs) == (set x | x in yt + yp);
    if |cs| <= 2 then BinaryTargetNames else ReversalTargetNames
  }

  /** Row of the confusion matrix for true label `a`: one count per predicted class. */
  function MatrixRow(yt: seq<int>, yp: seq<int>, a: int, cs: seq<int>): (row: seq<nat>)
    requires |yt| == |yp|
    ensures |row| == |cs|
    ensures forall j :: 0 <= j < |cs| ==> row[j] == CountPair(yt, yp, a, cs[j])
  {
    if cs == [] then [] else [CountPair(yt, yp, a, cs[0])] + MatrixRow(yt, yp, a, cs[1..])
  }

  function MatrixRows(yt: seq<int>, yp: seq<int>, rowsFor: seq<int>, cs: seq<int>): (m: seq<seq<nat>>)
    requires |yt| == |yp|
    ensures |m| == |rowsFor|
    ensures forall i :: 0 <= i < |rowsFor| ==> m[i] == MatrixRow(yt, yp, rowsFor[i], cs)
  {
    if rowsFor == [] then [] else [MatrixRow(yt, yp, rowsFor[0], cs)] + MatrixRows(yt, yp, rowsFor[1..], cs)
  }

  /** `compute_confusion_matrix`: entry (i, j) counts the positions whose
      true label is the i-th class and whose prediction is the j-th. */
  function ConfusionMatrix(yt: seq<int>, yp: seq<int>): (m: seq<seq<nat>>)
    requires |yt| == |yp|
    ensures |m| == |Classes(yt, yp)|
    ensures forall i :: 0 <= i < |m| ==> |m[i]| == |Classes(yt, yp)|
    ensures forall i, j :: 0 <= i < |m| && 0 <= j < |m[i]| ==>
      m[i][j] == CountPair(yt, yp, Classes(yt, yp)[i], Classes(yt, yp)[j])
  {
    var cs := Classes(yt, yp);
    MatrixRows(yt, yp, cs, cs)
  }

  function SumRow(row: seq<nat>): nat
  {
    if row == [] then 0 else row[0] + SumRow(row[1..])
  }

  function SumMatrix(m: seq<seq<nat>>): nat
  {
    if m == [] then 0 else SumRow(m[0]) + SumMatrix(m[1..])
  }

  /** Number of classes in `cs` equal to x: 1 when x occurs in a sorted class list. */
  function Hits(x: int, cs: seq<int>): nat
  {
    if cs == [] then 0 else (if cs[0] == x then 1 else 0) + Hits(x, cs[1..])
  }

  lemma {:induction false} HitsOnce(x: int, cs: seq<int>)
    requires StrictlySorted(cs)
    ensures Hits(x, cs) == if x in cs then 1 else 0
  {
    if cs != [] {
      HitsOnce(x, cs[1..]);
      if cs[0] == x {
        assert x !in cs[1..];
      }
    }
  }

  lemma {:induction false} RowSumIsCount(yt: seq<int>, yp: seq<int>, a: int, cs: seq<int>)
    requires |yt| == |yp|
    requires StrictlySorted(cs)
    requires forall k :: 0 <= k < |yp| ==> yp[k] in cs
    ensures SumRow(MatrixRow(yt, yp, a, cs)) == Count(yt, a)
  {
    if yt == [] {
      EmptyRowSumsToZero(a, cs);
    } else {
      assert yp[0] in cs;
      assert forall k :: 0 <= k < |yp[1..]| ==> yp[1..][k] == yp[k + 1];
      RowSumIsCount(yt[1..], yp[1..], a, cs);
      RowSumSplit(yt, yp, a, cs);
      HitsOnce(yp[0], cs);
      assert Hits(yp[0], cs) == 1;
      assert Count(yt, a) == (if yt[0] == a then 1 else 0) + Count(yt[1..], a);
    }
  }

  lemma {:induction false} EmptyRowSumsToZero(a: int, cs: seq<int>)
    ensures SumRow(MatrixRow([], [], a, cs)) == 0
  {
    if cs != [] {
      EmptyRowSumsToZero(a, cs[1..]);
    }
  }

  lemma {:induction false} EmptyCountsSumToZero(cs: seq<int>)
    ensures SumCounts([], cs) == 0
  {
    if cs != [] {
      EmptyCountsSumToZero(cs[1..]);
    }
  }

  lemma {:induction false} RowSumSplit(yt: seq<int>, yp: seq<int>, a: int, cs: seq<int>)
    requires |yt| == |yp| > 0
    ensures SumRow(MatrixRow(yt, yp, a, cs)) ==
      (if yt[0] == a then Hits(yp[0], cs) else 0) + SumRow(MatrixRow(yt[1..], yp[1..], a, cs))
  {
    if cs != [] {
      RowSumSplit(yt, yp, a, cs[1..]);
    }
  }

  lemma {:induction false} CountsSumToLength(s: seq<int>, cs: seq<int>)
    requires StrictlySorted(cs)
    requires forall k :: 0 <= k < |s| ==> s[k] in cs
    ensures SumCounts(s, cs) == |s|
  {
    if s == [] {
      EmptyCountsSumToZero(cs);
    } else {
      assert s[0] in cs;
      assert forall k :: 0 <= k < |s[1..]| ==> s[1..][k] == s[k + 1];
      CountsSumToLength(s[1..], cs);
      CountsSplit(s, cs);
      HitsOnce(s[0], cs);
      assert Hits(s[0], cs) == 1;
    }
  }

  lemma {:induction false} CountsSplit(s: seq<int>, cs: seq<int>)
    requires |s| > 0
    ensures SumCounts(s, cs) == Hits(s[0], cs) + SumCounts(s[1..], cs)
  {
    if cs != [] {
      CountsSplit(s, cs[1..]);
    }
  }

  lemma {:induction false} MatrixSumIsSumCounts(yt: seq<int>, yp: seq<int>, rowsFor: seq<int>, cs: seq<int>)
    requires |yt| == |yp|
    requires StrictlySorted(cs)
    requires forall k :: 0 <= k < |yp| ==> yp[k] in cs
    ensures SumMatrix(MatrixRows(yt, yp, rowsFor, cs)) == SumCounts(yt, rowsFor)
  {
    if rowsFor != [] {
      RowSumIsCount(yt, yp, rowsFor[0], cs);
      MatrixSumIsSumCounts(yt, yp, rowsFor[1..], cs);
    }
  }

  /** The confusion matrix is square over the classes and its entries sum
      to the number of samples. */
  lemma ConfusionMatrixTotal(yt: seq<int>, yp: seq<int>)
    requires |yt| == |yp|
    ensures |ConfusionMatrix(yt, yp)| == |Classes(yt, yp)|
    ensures SumMatrix(ConfusionMatrix(yt, yp)) == |yt|
  {
    var cs := Classes(yt, yp);
    assert forall k :: 0 <= k < |yp| ==> yp[k] in yt + yp;
    assert forall k :: 0 <= k < |yt| ==> yt[k] in yt + yp;
    MatrixSumIsSumCounts(yt, yp, cs, cs);
    CountsSumToLength(yt, cs);
  }

  /** The supports summed over the classes are the sample count, so the
      weighted average divides by the number of samples. */
  lemma SupportsSumToLength(yt: seq<int>, yp: seq<int>)
    ensures SumCounts(yt, Classes(yt, yp)) == |yt|
  {
    assert forall k :: 0 <= k < |yt| ==> yt[k] in yt + yp;
    CountsSumToLength(yt, Classes(yt, yp));
  }

  /** Perfect predictions on a non-degenerate sample give a kappa of 1. */
  lemma PerfectKappa(yt: seq<int>)
    requires Kappa(yt, yt) != 0.0
    ensures Kappa(yt, yt) == 1.0
  {
    AgreeAllIffEqual(yt, yt);
    var n := |yt| as real;
    NoDisagreement(n, n * n - SumChance(yt, yt, Classes(yt, yt)) as real);
  }

  lemma NoDisagreement(n: real, expected: real)
    ensures KappaOf(n, n, expected) == 0.0 || KappaOf(n, n, expected) == 1.0
  {
    assert (n - n) * n == 0.0;
  }
}
