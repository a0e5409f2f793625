/** What the label generators (the files under src/labels/) share: a label series is
    one optional value per input row (a pandas NaN is `None`), the last T
    rows are blanked with `iloc[-T:]`, and the defined rows are counted for
    the summary line. */
module LabelSeries {
  import opened Wrappers

  type Labels = seq<Option<real>>

  /** Closing prices are positive, so every percentage change is defined. */
  predicate PositivePrices(close: seq<real>)
  {
    forall i :: 0 <= i < |close| ==> close[i] > 0.0
  }

  /** Row k of n is blanked by `iloc[-T:]`. With T == 0 the slice is
      `iloc[0:]`, which blanks every row; with T >= n it is the whole
      series too. */
  predicate Blanked(n: nat, T: nat, k: int)
  {
    T == 0 || k + T >= n
  }

  /** Row k has its whole forward window close[k+1..k+T] inside the data. */
  predicate HasWindow(n: nat, T: nat, k: int)
  {
    0 <= k && k + T < n
  }

  /** `close.pct_change(T).shift(-T)` at row k: the return from row k to
      row k + T. */
  function FutureReturn(close: seq<real>, T: nat, k: nat): real
    requires PositivePrices(close) && HasWindow(|close|, T, k)
  {
    close[k + T] / close[k] - 1.0
  }

  /** The return is positive exactly when the later close is higher. */
  lemma FutureReturnPositiveIff(close: seq<real>, T: nat, k: nat)
    requires PositivePrices(close) && HasWindow(|close|, T, k)
    ensures FutureReturn(close, T, k) > 0.0 <==> close[k + T] > close[k]
  {
    var c := close[k];
    var q := close[k + T] / c;
    assert q * c == close[k + T];
    if q > 1.0 {
      assert (q - 1.0) * c > 0.0;
    } else {
      assert (1.0 - q) * c >= 0.0;
    }
  }

  /** `len(label.dropna())`. */
  function CountDefined(s: Labels): (k: nat)
    ensures k <= |s|
  {
    if s == [] then 0
    else CountDefined(s[..|s| - 1]) + (if s[|s| - 1].Some? then 1 else 0)
  }

  /** No row survives `dropna` exactly when every row is missing. */
  lemma {:induction false} CountDefinedZeroIff(s: Labels)
    ensures CountDefined(s) == 0 <==> forall i :: 0 <= i < |s| ==> s[i].None?
  {
    if s != [] {
      var init := s[..|s| - 1];
      CountDefinedZeroIff(init);
      assert forall i :: 0 <= i < |init| ==> init[i] == s[i];
    }
  }

  /** The summary's `total = len(valid)`, counted over the label array. */
  method CountValid(a: array<Option<real>>) returns (total: nat)
    ensures total == CountDefined(a[..])
  {
    total := 0;
    for i := 0 to a.Length
      invariant total == CountDefined(a[..i])
    {
      assert a[..i + 1][..i] == a[..i];
      if a[i].Some? {
        total := total + 1;
      }
    }
    assert a[..a.Length] == a[..];
  }

  /** `label.iloc[-T:] = np.nan`, in place. */
  method BlankTail(a: array<Option<real>>, T: nat)
    modifies a
    ensures forall k :: 0 <= k < a.Length ==> a[k] == if Blanked(a.Length, T, k) then None else old(a[k])
  {
    var start := if T == 0 || T >= a.Length then 0 else a.Length - T;
    for k := start to a.Length
      invariant forall m :: 0 <= m < a.Length ==> a[m] == if start <= m < k then None else old(a[m])
    {
      a[k] := None;
    }
  }

  /** Rows that are not blanked are exactly the rows with a full window
      (for T > 0), and there is at least one of them exactly when 0 < T < n. */
  lemma BlankedMeaning(n: nat, T: nat)
    ensures forall k :: 0 <= k < n ==> (!Blanked(n, T, k) <==> T > 0 && HasWindow(n, T, k))
    ensures (exists k :: 0 <= k < n && !Blanked(n, T, k)) <==> 0 < T < n
  {
    if 0 < T < n {
      assert !Blanked(n, T, 0);
    }
  }
}
