/** The triple-barrier generator (src/labels/triple_barrier.py): from each
    entry row the next T rows are scanned in order until the low touches
    the stop-loss barrier (label 0) or the high touches the take-profit
    barrier (label 2); if neither is touched the label is 1 (timeout).
    Per-row thresholds are inputs; the ATR-based dynamic thresholds are
    computed outside the model. */
module TripleBarrier {
  import opened Wrappers
  import opened LabelSeries

  /** The day j neither touches the stop-loss nor the take-profit barrier. */
  predicate Quiet(low: seq<real>, high: seq<real>, lower: real, upper: real, j: nat)
    requires j < |low| && j < |high|
  {
    low[j] > lower && high[j] < upper
  }

  /** Every day in [from, to) is quiet. */
  predicate QuietBetween(low: seq<real>, high: seq<real>, lower: real, upper: real, from: nat, to: nat)
    requires from <= to <= |low| && |high| == |low|
  {
    forall m :: from <= m < to ==> Quiet(low, high, lower, upper, m)
  }

  /** The outcome of scanning days [j, end): the stop-loss is checked before
      the take-profit on each day. */
  function FirstTouch(low: seq<real>, high: seq<real>, lower: real, upper: real, j: nat, end: nat): (r: real)
    requires j <= end <= |low| && |high| == |low|
    ensures r == 0.0 || r == 1.0 || r == 2.0
    decreases end - j
  {
    if j == end then 1.0
    else if low[j] <= lower then 0.0
    else if high[j] >= upper then 2.0
    else FirstTouch(low, high, lower, upper, j + 1, end)
  }

  /** The scan's outcome described by the first touching day: 1 iff no day
      touches; 0 iff the first touching day touches the stop-loss (even if
      it also touches the take-profit); 2 iff the first touching day touches
      only the take-profit. */
  lemma {:induction false} FirstTouchMeaning(low: seq<real>, high: seq<real>, lower: real, upper: real, j: nat, end: nat)
    requires j <= end <= |low| && |high| == |low|
    ensures var r := FirstTouch(low, high, lower, upper, j, end);
      && (r == 1.0 <==> QuietBetween(low, high, lower, upper, j, end))
      && (r == 0.0 <==> exists k :: j <= k < end && QuietBetween(low, high, lower, upper, j, k) && low[k] <= lower)
      && (r == 2.0 <==> exists k :: j <= k < end && QuietBetween(low, high, lower, upper, j, k)
                                     && low[k] > lower && high[k] >= upper)
    decreases end - j
  {
    if j < end {
      FirstTouchMeaning(low, high, lower, upper, j + 1, end);
      if !Quiet(low, high, lower, upper, j) {
        assert QuietBetween(low, high, lower, upper, j, j);
        assert !QuietBetween(low, high, lower, upper, j, end);
        forall k | j < k <= end
          ensures !QuietBetween(low, high, lower, upper, j, k)
        {
          assert !Quiet(low, high, lower, upper, j);
        }
      } else {
        forall k | j < k <= end
          ensures QuietBetween(low, high, lower, upper, j, k) <==> QuietBetween(low, high, lower, upper, j + 1, k)
        {
        }
        assert !(low[j] <= lower);
        assert !(low[j] > lower && high[j] >= upper);
      }
    }
  }

  /** The take-profit barrier close*(1+pt) and the stop-loss barrier close*(1-sl). */
  function UpperBarrier(c: real, pt: real): real
  {
    c * (1.0 + pt)
  }

  function LowerBarrier(c: real, sl: real): real
  {
    c * (1.0 - sl)
  }

  /** The label of row k, given its thresholds; missing without both
      thresholds or without a full window of T later rows. */
  function BarrierLabel(close: seq<real>, high: seq<real>, low: seq<real>,
                        pt: seq<Option<real>>, sl: seq<Option<real>>, T: nat, k: nat): Option<real>
    requires |high| == |close| && |low| == |close| && |pt| == |close| && |sl| == |close|
    requires k < |close|
  {
    if k + T >= |close| || pt[k].None? || sl[k].None? then None
    else
      Some(FirstTouch(low, high, LowerBarrier(close[k], sl[k].value), UpperBarrier(close[k], pt[k].value), k + 1, k + T + 1))
  }

  function TripleBarrierSeries(close: seq<real>, high: seq<real>, low: seq<real>,
                               pt: seq<Option<real>>, sl: seq<Option<real>>, T: nat): (s: Labels)
    requires |high| == |close| && |low| == |close| && |pt| == |close| && |sl| == |close|
    ensures |s| == |close|
  {
    seq(|close|, k requires 0 <= k < |close| => BarrierLabel(close, high, low, pt, sl, T, k))
  }

  /** `generate_triple_barrier_labels` over given per-row take-profit and
      stop-loss thresholds: a NaN array, then for each entry row with a
      full window the inner scan with its two `break`s. The summary guards
      an empty result, so there is no error case. */
  method GenerateTripleBarrierLabels(close: seq<real>, high: seq<real>, low: seq<real>,
                                     pt: seq<Option<real>>, sl: seq<Option<real>>, T: nat)
    returns (r: Labels)
    requires |high| == |close| && |low| == |close| && |pt| == |close| && |sl| == |close|
    ensures r == TripleBarrierSeries(close, high, low, pt, sl, T)
  {
    var n := |close|;
    var labels := new Option<real>[n](_ => None);
    var entries := if n > T then n - T else 0;
    for i := 0 to entries
      invariant forall k :: 0 <= k < i ==> labels[k] == BarrierLabel(close, high, low, pt, sl, T, k)
      invariant forall k :: i <= k < n ==> labels[k] == None
    {
      labels[i] := EntryLabel(close, high, low, pt, sl, T, i);
    }
    r := labels[..];
  }

  /** One entry row with a full window: missing without both thresholds,
      else the barriers from its close and the inner scan. */
  method EntryLabel(close: seq<real>, high: seq<real>, low: seq<real>,
                    pt: seq<Option<real>>, sl: seq<Option<real>>, T: nat, i: nat) returns (l: Option<real>)
    requires |high| == |close| && |low| == |close| && |pt| == |close| && |sl| == |close|
    requires i + T < |close|
    ensures l == BarrierLabel(close, high, low, pt, sl, T, i)
  {
    if pt[i].None? || sl[i].None? {
      return None;
    }
    var upper := UpperBarrier(close[i], pt[i].value);
    var lower := LowerBarrier(close[i], sl[i].value);
    var hit := ScanWindow(low, high, lower, upper, i + 1, i + T + 1);
    l := Some(hit);
  }

  /** The inner loop: walk the days [from, end) and break at the first
      stop-loss or take-profit touch. */
  method ScanWindow(low: seq<real>, high: seq<real>, lower: real, upper: real, from: nat, end: nat)
    returns (hit: real)
    requires from <= end <= |low| && |high| == |low|
    ensures hit == FirstTouch(low, high, lower, upper, from, end)
  {
    hit := 1.0;
    var j := from;
    while j < end
      invariant from <= j <= end
      invariant FirstTouch(low, high, lower, upper, from, end) == FirstTouch(low, high, lower, upper, j, end)
    {
      if low[j] <= lower {
        hit := 0.0;
        return;
      }
      if high[j] >= upper {
        hit := 2.0;
        return;
      }
      j := j + 1;
    }
  }

  /** Fixed mode: every row has take-profit X and stop-loss X * sl_ratio. */
  function FixedThresholds(n: nat, x: real): (s: seq<Option<real>>)
    ensures |s| == n && forall k :: 0 <= k < n ==> s[k] == Some(x)
  {
    seq(n, _ => Some(x))
  }

  /** In fixed mode every row with a full window is labelled, from the
      barriers close*(1+X) and close*(1-X*sl_ratio), with the meaning of
      FirstTouchMeaning; the last T rows stay missing. */
  lemma FixedModeRule(close: seq<real>, high: seq<real>, low: seq<real>, T: nat, X: real, slRatio: real, k: nat)
    requires |high| == |close| && |low| == |close|
    requires k < |close|
    ensures var n := |close|;
      var s := TripleBarrierSeries(close, high, low, FixedThresholds(n, X), FixedThresholds(n, X * slRatio), T);
      var upper := UpperBarrier(close[k], X);
      var lower := LowerBarrier(close[k], X * slRatio);
      && (s[k].None? <==> k + T >= n)
      && (s[k].Some? ==>
        && (s[k].value == 1.0 <==> QuietBetween(low, high, lower, upper, k + 1, k + T + 1))
        && (s[k].value == 0.0 <==> exists j :: k < j <= k + T && QuietBetween(low, high, lower, upper, k + 1, j) && low[j] <= lower)
        && (s[k].value == 2.0 <==> exists j :: k < j <= k + T && QuietBetween(low, high, lower, upper, k + 1, j)
                                              && low[j] > lower && high[j] >= upper))
  {
    var n := |close|;
    var pt, sl := FixedThresholds(n, X), FixedThresholds(n, X * slRatio);
    if k + T < n {
      var upper := UpperBarrier(close[k], X);
      var lower := LowerBarrier(close[k], X * slRatio);
      assert pt[k] == Some(X) && sl[k] == Some(X * slRatio);
      assert BarrierLabel(close, high, low, pt, sl, T, k) == Some(FirstTouch(low, high, lower, upper, k + 1, k + T + 1));
      assert TripleBarrierSeries(close, high, low, pt, sl, T)[k] == BarrierLabel(close, high, low, pt, sl, T, k);
      FirstTouchMeaning(low, high, lower, upper, k + 1, k + T + 1);
    }
  }

  /** Shape: one entry per row, the last T missing, a missing threshold
      leaves its row missing, every other row labelled 0, 1 or 2. */
  lemma TripleBarrierShape(close: seq<real>, high: seq<real>, low: seq<real>,
                           pt: seq<Option<real>>, sl: seq<Option<real>>, T: nat)
    requires |high| == |close| && |low| == |close| && |pt| == |close| && |sl| == |close|
    ensures var s := TripleBarrierSeries(close, high, low, pt, sl, T);
      && |s| == |close|
      && (forall k :: 0 <= k < |s| ==> (s[k].None? <==> k + T >= |s| || pt[k].None? || sl[k].None?))
      && (forall k :: 0 <= k < |s| && s[k].Some? ==> s[k].value in {0.0, 1.0, 2.0})
  {
  }

  /** A day that touches both barriers, reached with all earlier days
      quiet, is a stop-loss. */
  lemma SameDayTouchIsStopLoss(low: seq<real>, high: seq<real>, lower: real, upper: real, j: nat, end: nat, k: nat)
    requires j <= k < end <= |low| && |high| == |low|
    requires QuietBetween(low, high, lower, upper, j, k)
    requires low[k] <= lower && high[k] >= upper
    ensures FirstTouch(low, high, lower, upper, j, end) == 0.0
  {
    FirstTouchMeaning(low, high, lower, upper, j, end);
  }
}
