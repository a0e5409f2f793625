/** The directional generators (src/labels/directional.py): labels from
    the close-to-close return over T rows, r = close[k+T]/close[k] - 1.
    "directional" gives 0 (fall of at least X), 1 (flat) or 2 (rise of at
    least X); "return_sign" gives 1 for a positive return and 0 otherwise. */
module DirectionalLabels {
  import opened Wrappers
  import opened LabelSeries

  /** The mask `future_return >= X`; NaN (no full window) never matches. */
  predicate Up(close: seq<real>, T: nat, X: real, k: nat)
    requires PositivePrices(close)
  {
    HasWindow(|close|, T, k) && FutureReturn(close, T, k) >= X
  }

  /** The mask `future_return <= -X`. */
  predicate Down(close: seq<real>, T: nat, X: real, k: nat)
    requires PositivePrices(close)
  {
    HasWindow(|close|, T, k) && FutureReturn(close, T, k) <= -X
  }

  /** The label before the tail is blanked: 1, overwritten by 2 where the
      rise mask matches, then by 0 where the fall mask matches. */
  function RawDirection(close: seq<real>, T: nat, X: real, k: nat): real
    requires PositivePrices(close)
  {
    if Down(close, T, X, k) then 0.0 else if Up(close, T, X, k) then 2.0 else 1.0
  }

  function DirectionalSeries(close: seq<real>, T: nat, X: real): (s: Labels)
    requires PositivePrices(close)
    ensures |s| == |close|
  {
    seq(|close|, k requires 0 <= k < |close| =>
      if Blanked(|close|, T, k) then None
      else Some(RawDirection(close, T, X, k)))
  }

  /** What `generate_directional_labels` returns, or the ZeroDivisionError
      of its summary line when no row is labelled. */
  function DirectionalSpec(close: seq<real>, T: nat, X: real): Result<Labels>
    requires PositivePrices(close)
  {
    var s := DirectionalSeries(close, T, X);
    if CountDefined(s) == 0 then Err(ZeroDivisionError) else Ok(s)
  }

  /** `generate_directional_labels`: a series of 1s, the rise mask writes
      2, the fall mask then writes 0, the tail is blanked in place. */
  method GenerateDirectionalLabels(close: seq<real>, T: nat, X: real) returns (r: Result<Labels>)
    requires PositivePrices(close)
    ensures r == DirectionalSpec(close, T, X)
  {
    var n := |close|;
    var labels := new Option<real>[n](_ => Some(1.0));
    for i := 0 to n
      invariant forall k :: 0 <= k < i ==> labels[k] == if Up(close, T, X, k) then Some(2.0) else Some(1.0)
      invariant forall k :: i <= k < n ==> labels[k] == Some(1.0)
    {
      if Up(close, T, X, i) {
        labels[i] := Some(2.0);
      }
    }
    for i := 0 to n
      invariant forall k :: 0 <= k < i ==> labels[k] == Some(RawDirection(close, T, X, k))
      invariant forall k :: i <= k < n ==> labels[k] == if Up(close, T, X, k) then Some(2.0) else Some(1.0)
    {
      if Down(close, T, X, i) {
        labels[i] := Some(0.0);
      }
    }
    BlankTail(labels, T);
    assert labels[..] == DirectionalSeries(close, T, X);
    var total := CountValid(labels);
    if total == 0 {
      r := Err(ZeroDivisionError);
    } else {
      r := Ok(labels[..]);
    }
  }

  /** The directional generator raises exactly when T == 0 or T >= the
      number of rows. */
  lemma DirectionalFailsIff(close: seq<real>, T: nat, X: real)
    requires PositivePrices(close)
    ensures DirectionalSpec(close, T, X).Err? <==> T == 0 || T >= |close|
    ensures DirectionalSpec(close, T, X).Err? ==> DirectionalSpec(close, T, X).error == ZeroDivisionError
  {
    var s := DirectionalSeries(close, T, X);
    CountDefinedZeroIff(s);
    if 0 < T < |close| {
      assert s[0].Some?;
    }
  }

  /** The rule for a labelled row: 0 iff r <= -X (0 is written last, so it
      wins when X <= 0 lets both masks match), else 2 iff r >= X, else 1;
      the last T rows are missing. */
  lemma DirectionalRule(close: seq<real>, T: nat, X: real)
    requires PositivePrices(close)
    ensures var s := DirectionalSeries(close, T, X);
      forall k :: 0 <= k < |close| ==>
        && (s[k].None? <==> T == 0 || k + T >= |close|)
        && (s[k].Some? ==>
          var r := FutureReturn(close, T, k);
          && (s[k].value == 0.0 <==> r <= -X)
          && (s[k].value == 2.0 <==> r > -X && r >= X)
          && (s[k].value == 1.0 <==> -X < r < X))
  {
  }

  /** For a positive threshold the two masks cannot both match. */
  lemma DirectionalExclusive(close: seq<real>, T: nat, X: real, k: nat)
    requires PositivePrices(close) && X > 0.0
    ensures !(Up(close, T, X, k) && Down(close, T, X, k))
  {
  }

  // ---------------------------------------------------------------------
  // return_sign

  /** `(future_return > 0).astype(float)` at row k; NaN compares false. */
  function RawSign(close: seq<real>, T: nat, k: nat): real
    requires PositivePrices(close)
  {
    if HasWindow(|close|, T, k) && FutureReturn(close, T, k) > 0.0 then 1.0 else 0.0
  }

  function ReturnSignSeries(close: seq<real>, T: nat): (s: Labels)
    requires PositivePrices(close)
    ensures |s| == |close|
  {
    seq(|close|, k requires 0 <= k < |close| =>
      if Blanked(|close|, T, k) then None
      else Some(RawSign(close, T, k)))
  }

  /** `generate_return_sign_labels`: `(future_return > 0).astype(float)`
      (NaN compares false, giving 0), then the tail blanked in place. The
      threshold X is accepted and not used; the summary takes a mean, which
      does not raise on an empty series. */
  method GenerateReturnSignLabels(close: seq<real>, T: nat, X: real) returns (r: Labels)
    requires PositivePrices(close)
    ensures r == ReturnSignSeries(close, T)
  {
    var n := |close|;
    var labels := new Option<real>[n];
    for i := 0 to n
      invariant forall k :: 0 <= k < i ==> labels[k] == Some(RawSign(close, T, k))
    {
      labels[i] := Some(if HasWindow(n, T, i) && FutureReturn(close, T, i) > 0.0 then 1.0 else 0.0);
    }
    BlankTail(labels, T);
    r := labels[..];
  }

  /** A labelled return-sign row is 1 exactly for a strictly positive
      return: a flat close gives 0. */
  lemma ReturnSignRule(close: seq<real>, T: nat, k: nat)
    requires PositivePrices(close)
    requires k < |close|
    ensures var s := ReturnSignSeries(close, T);
      && (s[k].None? <==> T == 0 || k + T >= |close|)
      && (s[k].Some? ==> (s[k].value == 1.0 <==> close[k + T] > close[k]))
      && (s[k].Some? ==> s[k].value in {0.0, 1.0})
  {
    if !Blanked(|close|, T, k) {
      FutureReturnPositiveIff(close, T, k);
    }
  }

  /** Where both are labelled, a directional rise (label 2) with a positive
      threshold always has return sign 1, and a directional fall (label 0)
      with a non-negative threshold always has return sign 0. */
  lemma DirectionalAgreesWithSign(close: seq<real>, T: nat, X: real, k: nat)
    requires PositivePrices(close)
    requires k < |close|
    requires DirectionalSeries(close, T, X)[k].Some?
    ensures X > 0.0 && DirectionalSeries(close, T, X)[k] == Some(2.0) ==> ReturnSignSeries(close, T)[k] == Some(1.0)
    ensures X >= 0.0 && DirectionalSeries(close, T, X)[k] == Some(0.0) ==> ReturnSignSeries(close, T)[k] == Some(0.0)
  {
  }
}
