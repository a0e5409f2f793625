/** The regression target (src/labels/return_rate.py): the percentage
    return over the next T rows, missing on the last T rows. */
module ReturnRateLabels {
  import opened Wrappers
  import opened LabelSeries
  import DirectionalLabels

  /** `close.pct_change(T).shift(-T) * 100` at row k; NaN without a window. */
  function RawReturnRate(close: seq<real>, T: nat, k: nat): Option<real>
    requires PositivePrices(close)
  {
    if HasWindow(|close|, T, k) then Some(FutureReturn(close, T, k) * 100.0) else None
  }

  function ReturnRateSeries(close: seq<real>, T: nat): (s: Labels)
    requires PositivePrices(close)
    ensures |s| == |close|
  {
    seq(|close|, k requires 0 <= k < |close| =>
      if Blanked(|close|, T, k) then None else RawReturnRate(close, T, k))
  }

  /** `generate_return_rate_labels`: the percentage returns, then the tail
      blanked in place. X is accepted for configuration compatibility and
      not used; the summary statistics never raise. */
  method GenerateReturnRateLabels(close: seq<real>, T: nat, X: real) returns (r: Labels)
    requires PositivePrices(close)
    ensures r == ReturnRateSeries(close, T)
  {
    var n := |close|;
    var values := new Option<real>[n];
    for i := 0 to n
      invariant forall k :: 0 <= k < i ==> values[k] == RawReturnRate(close, T, k)
    {
      values[i] := RawReturnRate(close, T, i);
    }
    BlankTail(values, T);
    r := values[..];
  }

  /** A defined value is (close[k+T] - close[k]) / close[k] * 100, and
      exactly the last T rows (every row when T == 0) are missing. */
  lemma ReturnRateValue(close: seq<real>, T: nat, k: nat)
    requires PositivePrices(close) && k < |close|
    ensures var s := ReturnRateSeries(close, T);
      && (s[k].None? <==> T == 0 || k + T >= |close|)
      && (s[k].Some? ==> s[k].value == (close[k + T] - close[k]) / close[k] * 100.0)
  {
    if !Blanked(|close|, T, k) {
      var c := close[k];
      var q := close[k + T] / c;
      var d := (close[k + T] - c) / c;
      assert q * c == close[k + T];
      assert d * c == close[k + T] - c;
      assert (q - 1.0 - d) * c == 0.0;
    }
  }

  /** The regression target and the return-sign label agree: where both are
      defined, the rate is positive exactly when the sign label is 1. */
  lemma ReturnRateAgreesWithSign(close: seq<real>, T: nat, k: nat)
    requires PositivePrices(close) && k < |close|
    ensures var rate := ReturnRateSeries(close, T)[k];
      var sign := DirectionalLabels.ReturnSignSeries(close, T)[k];
      && (rate.Some? <==> sign.Some?)
      && (rate.Some? ==> (rate.value > 0.0 <==> sign.value == 1.0))
  {
    if !Blanked(|close|, T, k) {
      FutureReturnPositiveIff(close, T, k);
    }
  }
}
