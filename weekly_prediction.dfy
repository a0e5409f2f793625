/** The weekly combined report's decision rules
    (scripts/run_weekly_prediction.py): the signal matrix that pairs the
    bull and bear models' predictions row by row, the Kappa agreement
    bands, the model quality verdict, the majority-class baseline and the
    signal shares. The report's markdown text is not modelled. */
module WeeklyPrediction {
  import opened Wrappers
  import opened Metrics
  import WeeklySignal

  // ---------------------------------------------------------------------
  // The signal matrix

  const StrongBull := "强多头"
  const StrongBear := "强空头"
  const Ranging := "震荡"
  const HighVolatility := "高波动"
  const SignalNames := [StrongBull, StrongBear, Ranging, HighVolatility]

  /** The signal of one row: (1, 0), (0, 1) and (0, 0) have their own
      names, and every other pair is high volatility. */
  function RowSignal(b: int, d: int): (s: string)
    ensures s in SignalNames
    ensures s == StrongBull <==> b == 1 && d == 0
    ensures s == StrongBear <==> b == 0 && d == 1
    ensures s == Ranging <==> b == 0 && d == 0
    ensures s == HighVolatility <==> !((b == 0 || b == 1) && (d == 0 || d == 1)) || (b == 1 && d == 1)
  {
    if b == 1 && d == 0 then StrongBull
    else if b == 0 && d == 1 then StrongBear
    else if b == 0 && d == 0 then Ranging
    else HighVolatility
  }

  /** The data frame's three columns. */
  datatype SignalMatrix = SignalMatrix(bullPred: seq<int>, bearPred: seq<int>, signal: seq<string>)

  function Min(a: nat, b: nat): nat
  {
    if a < b then a else b
  }

  /** `build_signal_matrix`: both prediction columns are cut to the shorter
      length, and the loop appends one signal per aligned pair. */
  method BuildSignalMatrix(bullPreds: seq<int>, bearPreds: seq<int>) returns (m: SignalMatrix)
    ensures var n := Min(|bullPreds|, |bearPreds|);
      && m.bullPred == bullPreds[..n]
      && m.bearPred == bearPreds[..n]
      && |m.signal| == n
      && forall i :: 0 <= i < n ==> m.signal[i] == RowSignal(bullPreds[i], bearPreds[i])
  {
    var n := if |bullPreds| < |bearPreds| then |bullPreds| else |bearPreds|;
    var bullY := bullPreds[..n];
    var bearY := bearPreds[..n];
    var signals: seq<string> := [];
    for i := 0 to n
      invariant |signals| == i
      invariant forall k :: 0 <= k < i ==> signals[k] == RowSignal(bullY[k], bearY[k])
    {
      var b := bullY[i];
      var d := bearY[i];
      if b == 1 && d == 0 {
        signals := signals + [StrongBull];
      } else if b == 0 && d == 1 {
        signals := signals + [StrongBear];
      } else if b == 0 && d == 0 {
        signals := signals + [Ranging];
      } else {
        signals := signals + [HighVolatility];
      }
    }
    m := SignalMatrix(bullY, bearY, signals);
  }

  /** For 0/1 predictions the matrix names the same signal that the weekly
      signal script derives from the two threshold tests: its signal text
      is an emoji, a space and this name. */
  lemma MatrixAgreesWithWeeklySignal(b: int, d: int)
    requires (b == 0 || b == 1) && (d == 0 || d == 1)
    ensures var text := WeeklySignal.SignalText(WeeklySignal.Classify(b == 1, d == 1));
      var name := RowSignal(b, d);
      && |name| < |text|
      && text[|text| - |name| - 1..] == " " + name
  {
    var text := WeeklySignal.SignalText(WeeklySignal.Classify(b == 1, d == 1));
    if b == 1 && d == 0 {
      assert text == "📈 " + StrongBull;
    } else if b == 0 && d == 1 {
      assert text == "📉 " + StrongBear;
    } else if b == 0 && d == 0 {
      assert text == "⏸️ " + Ranging;
    } else {
      assert text == "⚠️ " + HighVolatility;
    }
  }

  // ---------------------------------------------------------------------
  // Signal shares

  function CountOf(s: seq<string>, v: string): (c: nat)
    ensures c <= |s|
  {
    if s == [] then 0 else (if s[0] == v then 1 else 0) + CountOf(s[1..], v)
  }

  /** A signal's share in percent of all rows; 0 when there are no rows. */
  function Share(count: nat, total: nat): (pct: real)
    ensures total == 0 ==> pct == 0.0
    ensures count <= total ==> 0.0 <= pct <= 100.0
    ensures 0 < total ==> pct * total as real == count as real * 100.0
  {
    if total > 0 then count as real / total as real * 100.0 else 0.0
  }

  lemma {:induction false} NamesPartition(s: seq<string>)
    requires forall i :: 0 <= i < |s| ==> s[i] in SignalNames
    ensures CountOf(s, StrongBull) + CountOf(s, StrongBear) + CountOf(s, Ranging) + CountOf(s, HighVolatility) == |s|
  {
    if s != [] {
      NamesPartition(s[1..]);
    }
  }

  /** Every row carries one of the four names, so the four shares of a
      non-empty matrix add up to 100. */
  lemma SharesSumToHundred(signals: seq<string>)
    requires signals != []
    requires forall i :: 0 <= i < |signals| ==> signals[i] in SignalNames
    ensures var t := |signals|;
      Share(CountOf(signals, StrongBull), t) + Share(CountOf(signals, StrongBear), t)
      + Share(CountOf(signals, Ranging), t) + Share(CountOf(signals, HighVolatility), t) == 100.0
  {
    NamesPartition(signals);
    var n := |signals|;
    var t := n as real;
    var c1, c2 := CountOf(signals, StrongBull) as real, CountOf(signals, StrongBear) as real;
    var c3, c4 := CountOf(signals, Ranging) as real, CountOf(signals, HighVolatility) as real;
    assert c1 + c2 + c3 + c4 == t;
    FractionsSum(c1, c2, c3, c4, t);
  }

  lemma FractionsSum(a: real, b: real, c: real, d: real, t: real)
    requires t > 0.0 && a + b + c + d == t
    ensures a / t * 100.0 + b / t * 100.0 + c / t * 100.0 + d / t * 100.0 == 100.0
  {
    assert a / t + b / t + c / t + d / t == (a + b + c + d) / t;
  }

  // ---------------------------------------------------------------------
  // Kappa agreement bands and the quality verdict

  datatype Agreement = WorseThanChance | NoAgreement | Weak | Moderate | Substantial | Strong

  function AgreementText(a: Agreement): string
  {
    match a
    case WorseThanChance => "❌ 比随机差"
    case NoAgreement => "❌ 几乎无一致性"
    case Weak => "⚠️ 弱一致性"
    case Moderate => "🔶 中等一致性"
    case Substantial => "✅ 较强一致性"
    case Strong => "✅ 强一致性"
  }

  /** `kappa_level`: six bands, each closed below and open above, with cut
      points 0, 0.2, 0.4, 0.6 and 0.8. */
  function KappaLevel(k: real): (a: Agreement)
    ensures a == WorseThanChance <==> k < 0.0
    ensures a == NoAgreement <==> 0.0 <= k < 0.2
    ensures a == Weak <==> 0.2 <= k < 0.4
    ensures a == Moderate <==> 0.4 <= k < 0.6
    ensures a == Substantial <==> 0.6 <= k < 0.8
    ensures a == Strong <==> 0.8 <= k
  {
    if k < 0.0 then WorseThanChance
    else if k < 0.2 then NoAgreement
    else if k < 0.4 then Weak
    else if k < 0.6 then Moderate
    else if k < 0.8 then Substantial
    else Strong
  }

  function AgreementRank(a: Agreement): nat
  {
    match a
    case WorseThanChance => 0
    case NoAgreement => 1
    case Weak => 2
    case Moderate => 3
    case Substantial => 4
    case Strong => 5
  }

  /** A larger kappa never falls in a lower band. */
  lemma KappaLevelMonotone(k1: real, k2: real)
    requires k1 <= k2
    ensures AgreementRank(KappaLevel(k1)) <= AgreementRank(KappaLevel(k2))
  {
  }

  datatype Quality = Good | Mediocre | Poor

  /** `assess_model`: good needs both F1 and precision at 0.5 or more;
      otherwise an F1 of 0.3 or more is mediocre. Accuracy and recall are
      passed in but play no part. */
  function AssessModel(accuracy: real, f1: real, precision: real, recall: real): (q: Quality)
    ensures q == Good <==> f1 >= 0.5 && precision >= 0.5
    ensures q == Mediocre <==> f1 >= 0.3 && !(f1 >= 0.5 && precision >= 0.5)
    ensures q == Poor <==> f1 < 0.3
  {
    if f1 >= 0.5 && precision >= 0.5 then Good
    else if f1 >= 0.3 then Mediocre
    else Poor
  }

  function QualityRank(q: Quality): nat
  {
    match q
    case Poor => 0
    case Mediocre => 1
    case Good => 2
  }

  /** Better F1 and precision never give a worse verdict, whatever the
      accuracy and recall. */
  lemma AssessMonotone(acc1: real, f1: real, prec1: real, rec1: real, acc2: real, f2: real, prec2: real, rec2: real)
    requires f1 <= f2 && prec1 <= prec2
    ensures QualityRank(AssessModel(acc1, f1, prec1, rec1)) <= QualityRank(AssessModel(acc2, f2, prec2, rec2))
  {
  }

  // ---------------------------------------------------------------------
  // The majority-class baseline

  function Sum(y: seq<int>): int
  {
    if y == [] then 0 else y[0] + Sum(y[1..])
  }

  /** `y_true.mean()`; an empty column has no mean. */
  function Mean(y: seq<int>): (m: Option<real>)
    ensures m.Some? <==> y != []
  {
    if y == [] then None else Some(Sum(y) as real / |y| as real)
  }

  /** The accuracy of always predicting the majority class, `max(p, 1 - p)`
      for positive rate `p`. */
  function MajorityBaseline(p: real): (acc: real)
    ensures 0.0 <= p <= 1.0 ==> 0.5 <= acc <= 1.0
  {
    if p >= 1.0 - p then p else 1.0 - p
  }

  function Constant(v: int, n: nat): (s: seq<int>)
    ensures |s| == n && forall i :: 0 <= i < n ==> s[i] == v
  {
    if n == 0 then [] else [v] + Constant(v, n - 1)
  }

  predicate ZeroOne(y: seq<int>)
  {
    forall i :: 0 <= i < |y| ==> y[i] == 0 || y[i] == 1
  }

  lemma {:induction false} ZeroOneCounts(y: seq<int>)
    requires ZeroOne(y)
    ensures Sum(y) == Count(y, 1)
    ensures Count(y, 0) + Count(y, 1) == |y|
    ensures Agree(y, Constant(1, |y|)) == Count(y, 1)
    ensures Agree(y, Constant(0, |y|)) == Count(y, 0)
  {
    if y != [] {
      ZeroOneCounts(y[1..]);
      assert Constant(1, |y|)[1..] == Constant(1, |y| - 1);
      assert Constant(0, |y|)[1..] == Constant(0, |y| - 1);
    }
  }

  /** On 0/1 labels the baseline is the accuracy of the better of the two
      constant predictions. */
  lemma BaselineIsBestConstant(y: seq<int>)
    requires y != [] && ZeroOne(y)
    ensures Mean(y).Some?
    ensures var acc := MajorityBaseline(Mean(y).value);
      var ones := Accuracy(y, Constant(1, |y|));
      var zeros := Accuracy(y, Constant(0, |y|));
      && (acc == ones || acc == zeros)
      && ones <= acc && zeros <= acc
      && 0.5 <= acc <= 1.0
  {
    ZeroOneCounts(y);
    var n := |y| as real;
    var c1 := Count(y, 1) as real;
    var c0 := Count(y, 0) as real;
    assert Mean(y).value == c1 / n;
    ComplementRate(c0, c1, n);
  }

  lemma ComplementRate(c0: real, c1: real, n: real)
    requires 0.0 <= c0 && 0.0 <= c1 && c0 + c1 == n && n > 0.0
    ensures c0 / n == 1.0 - c1 / n
    ensures 0.0 <= c1 / n <= 1.0
  {
    assert c0 / n + c1 / n == (c0 + c1) / n;
  }
}
