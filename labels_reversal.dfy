/** The reversal label generator (src/labels/reversal.py): a three-class
    label per row from the largest rise and the largest fall of the close
    over the next T rows. 0 = top reversal (a fall of at least X), 1 =
    normal, 2 = bottom reversal (a rise of at least X). */
module ReversalLabels {
  import opened Wrappers
  import opened LabelSeries

  /** `max(close[lo..hi])`, the rolling maximum the source shifts back. */
  function WindowMax(close: seq<real>, lo: nat, hi: nat): (m: real)
    requires lo < hi <= |close|
    ensures forall k :: lo <= k < hi ==> close[k] <= m
    ensures exists k :: lo <= k < hi && close[k] == m
    decreases hi - lo
  {
    if hi - 1 == lo then close[lo]
    else
      var rest := WindowMax(close, lo, hi - 1);
      if close[hi - 1] > rest then close[hi - 1] else rest
  }

  /** `min(close[lo..hi])`. */
  function WindowMin(close: seq<real>, lo: nat, hi: nat): (m: real)
    requires lo < hi <= |close|
    ensures forall k :: lo <= k < hi ==> m <= close[k]
    ensures exists k :: lo <= k < hi && close[k] == m
    decreases hi - lo
  {
    if hi - 1 == lo then close[lo]
    else
      var rest := WindowMin(close, lo, hi - 1);
      if close[hi - 1] < rest then close[hi - 1] else rest
  }

  /** The first mask, `future_min_return <= -X`. Rows without a full window
      compare against NaN and are never selected; so is every row when
      T == 0 (a rolling window of 0 yields NaN). */
  predicate Falls(close: seq<real>, T: nat, X: real, k: nat)
    requires PositivePrices(close)
  {
    T > 0 && HasWindow(|close|, T, k)
    && (WindowMin(close, k + 1, k + T + 1) - close[k]) / close[k] <= -X
  }

  /** The second mask, `future_max_return >= X`. */
  predicate Rises(close: seq<real>, T: nat, X: real, k: nat)
    requires PositivePrices(close)
  {
    T > 0 && HasWindow(|close|, T, k)
    && (WindowMax(close, k + 1, k + T + 1) - close[k]) / close[k] >= X
  }

  /** The label before the tail is blanked: start at 1, the fall mask
      writes 0, then the rise mask writes 2 over it. */
  function RawLabel(close: seq<real>, T: nat, X: real, k: nat): real
    requires PositivePrices(close)
  {
    if Rises(close, T, X, k) then 2.0
    else if Falls(close, T, X, k) then 0.0
    else 1.0
  }

  function ReversalSeries(close: seq<real>, T: nat, X: real): (s: Labels)
    requires PositivePrices(close)
    ensures |s| == |close|
  {
    seq(|close|, k requires 0 <= k < |close| =>
      if Blanked(|close|, T, k) then None else Some(RawLabel(close, T, X, k)))
  }

  /** What `generate_reversal_labels` returns, or the ZeroDivisionError its
      summary line raises when no row is labelled. */
  function ReversalSpec(close: seq<real>, T: nat, X: real): Result<Labels>
    requires PositivePrices(close)
  {
    var s := ReversalSeries(close, T, X);
    if CountDefined(s) == 0 then Err(ZeroDivisionError) else Ok(s)
  }

  /** The generator: a series of 1s, two mask writes, the tail blanked in
      place, then the count the summary divides by. */
  method GenerateReversalLabels(close: seq<real>, T: nat, X: real) returns (r: Result<Labels>)
    requires PositivePrices(close)
    ensures r == ReversalSpec(close, T, X)
  {
    var n := |close|;
    var labels := new Option<real>[n](_ => Some(1.0));
    MarkFalls(labels, close, T, X);
    MarkRises(labels, close, T, X);
    BlankTail(labels, T);
    assert labels[..] == ReversalSeries(close, T, X);
    var total := CountValid(labels);
    if total == 0 {
      r := Err(ZeroDivisionError);
    } else {
      r := Ok(labels[..]);
    }
  }

  /** `labels[mask_fall] = 0` over a series of 1s. */
  method MarkFalls(labels: array<Option<real>>, close: seq<real>, T: nat, X: real)
    requires labels.Length == |close| && PositivePrices(close)
    requires forall k :: 0 <= k < labels.Length ==> labels[k] == Some(1.0)
    modifies labels
    ensures forall k :: 0 <= k < labels.Length ==> labels[k] == if Falls(close, T, X, k) then Some(0.0) else Some(1.0)
  {
    for i := 0 to labels.Length
      invariant forall k :: 0 <= k < i ==> labels[k] == if Falls(close, T, X, k) then Some(0.0) else Some(1.0)
      invariant forall k :: i <= k < labels.Length ==> labels[k] == Some(1.0)
    {
      if Falls(close, T, X, i) {
        labels[i] := Some(0.0);
      }
    }
  }

  /** `labels[mask_rise] = 2`, written after the falls so a row in both masks ends as 2. */
  method MarkRises(labels: array<Option<real>>, close: seq<real>, T: nat, X: real)
    requires labels.Length == |close| && PositivePrices(close)
    requires forall k :: 0 <= k < labels.Length ==> labels[k] == if Falls(close, T, X, k) then Some(0.0) else Some(1.0)
    modifies labels
    ensures forall k :: 0 <= k < labels.Length ==> labels[k] == Some(RawLabel(close, T, X, k))
  {
    for i := 0 to labels.Length
      invariant forall k :: 0 <= k < i ==> labels[k] == Some(RawLabel(close, T, X, k))
      invariant forall k :: i <= k < labels.Length ==> labels[k] == if Falls(close, T, X, k) then Some(0.0) else Some(1.0)
    {
      if Rises(close, T, X, i) {
        labels[i] := Some(2.0);
      }
    }
  }

  /** The generator raises exactly when no row has a label: T == 0 or
      T >= the number of rows. */
  lemma ReversalFailsIff(close: seq<real>, T: nat, X: real)
    requires PositivePrices(close)
    ensures ReversalSpec(close, T, X).Err? <==> T == 0 || T >= |close|
    ensures ReversalSpec(close, T, X).Err? ==> ReversalSpec(close, T, X).error == ZeroDivisionError
  {
    var s := ReversalSeries(close, T, X);
    CountDefinedZeroIff(s);
    if 0 < T < |close| {
      assert s[0].Some?;
    }
  }

  /** Shape of a successful result: one entry per row, the last T missing,
      every other row labelled 0, 1 or 2. */
  lemma ReversalShape(close: seq<real>, T: nat, X: real)
    requires PositivePrices(close)
    requires ReversalSpec(close, T, X).Ok?
    ensures var s := ReversalSpec(close, T, X).value;
      && |s| == |close|
      && (forall k :: 0 <= k < |s| ==> (s[k].None? <==> k + T >= |s|))
      && (forall k :: 0 <= k < |s| && s[k].Some? ==> s[k].value in {0.0, 1.0, 2.0})
  {
    ReversalFailsIff(close, T, X);
  }

  /** The labelling rule in the source's terms: with c = close[k], mx and
      mn the maximum and minimum of close[k+1..k+T], the label is 2 iff
      (mx - c)/c >= X, else 0 iff (mn - c)/c <= -X, else 1. In particular a
      row that reaches both thresholds is labelled 2: the rise mask is
      written last, whatever the warning in the log says. */
  lemma ReversalRule(close: seq<real>, T: nat, X: real, k: nat)
    requires PositivePrices(close)
    requires T > 0 && k + T < |close|
    ensures var c := close[k];
      var mx := WindowMax(close, k + 1, k + T + 1);
      var mn := WindowMin(close, k + 1, k + T + 1);
      var s := ReversalSeries(close, T, X);
      && s[k].Some?
      && (s[k].value == 2.0 <==> (mx - c) / c >= X)
      && (s[k].value == 0.0 <==> (mx - c) / c < X && (mn - c) / c <= -X)
      && (s[k].value == 1.0 <==> (mx - c) / c < X && (mn - c) / c > -X)
  {
  }

  /** A row that reaches both thresholds gets 2 (bottom reversal). */
  lemma BothThresholdsGiveTwo(close: seq<real>, T: nat, X: real, k: nat)
    requires PositivePrices(close)
    requires T > 0 && k + T < |close|
    requires Falls(close, T, X, k) && Rises(close, T, X, k)
    ensures ReversalSeries(close, T, X)[k] == Some(2.0)
  {
  }

  /** The rise is measured against the true maximum of the window: a
      return of at least X to any day of it gives label 2. */
  lemma RiseOnAnyDay(close: seq<real>, T: nat, X: real, k: nat, j: nat)
    requires PositivePrices(close)
    requires T > 0 && k + T < |close| && k < j <= k + T
    requires (close[j] - close[k]) / close[k] >= X
    ensures ReversalSeries(close, T, X)[k] == Some(2.0)
  {
    var mx := WindowMax(close, k + 1, k + T + 1);
    DivMonotone(close[j] - close[k], mx - close[k], close[k]);
    assert Rises(close, T, X, k);
  }

  /** The fall is measured against the true minimum of the window: a
      return of at most -X to any day of it gives label 0 unless the row
      also rises by X. */
  lemma FallOnAnyDay(close: seq<real>, T: nat, X: real, k: nat, j: nat)
    requires PositivePrices(close)
    requires T > 0 && k + T < |close| && k < j <= k + T
    requires (close[j] - close[k]) / close[k] <= -X
    requires !Rises(close, T, X, k)
    ensures ReversalSeries(close, T, X)[k] == Some(0.0)
  {
    var mn := WindowMin(close, k + 1, k + T + 1);
    DivMonotone(mn - close[k], close[j] - close[k], close[k]);
    assert Falls(close, T, X, k);
  }

  lemma DivMonotone(a: real, b: real, c: real)
    requires c > 0.0 && a <= b
    ensures a / c <= b / c
  {
    var p, q := a / c, b / c;
    assert p * c == a && q * c == b;
    assert (q - p) * c >= 0.0;
  }
}
