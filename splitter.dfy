/** Walk-forward fold generation (src/data/splitter.py).
    Fold k trains on [0, init + k*step) and tests on the `oos` rows that
    follow; the loop stops as soon as a full test window no longer fits. */
module Splitter {
  import opened Wrappers

  datatype FoldSplit = FoldSplit(foldId: int, trainStart: int, trainEnd: int, testStart: int, testEnd: int)

  function Min(a: int, b: int): int { if a <= b then a else b }

  /** The fold loop of the source only terminates when `step` is positive,
      unless it is never entered or an error is raised before it. */
  predicate Terminates(n: int, init: int, oos: int, step: int)
  {
    step > 0 || init >= n || init + oos > n
  }

  /** The k-th fold the loop emits. */
  function FoldAt(n: int, init: int, oos: int, step: int, k: nat): FoldSplit
  {
    var e := init + k * step;
    FoldSplit(k, 0, e, e, Min(e + oos, n))
  }

  /** Closed-form number of folds. */
  function FoldCount(n: int, init: int, oos: int, step: int): nat
    requires step > 0 || init + oos > n
  {
    if init + oos > n then 0 else (n - init - oos) / step + 1
  }

  /** What `walk_forward_split` returns (or raises) for the given arguments. */
  function SplitSpec(n: int, init: int, oos: int, step: int): Result<seq<FoldSplit>>
    requires Terminates(n, init, oos, step)
  {
    if init >= n then Err(ValueError("init_train >= n_samples"))
    else if init + oos > n then Err(ValueError("no fold can be generated"))
    else Ok(seq(FoldCount(n, init, oos, step), (k: int) requires 0 <= k => FoldAt(n, init, oos, step, k)))
  }

  lemma MulMono(a: int, b: int, c: int)
    requires a <= b && c > 0
    ensures a * c <= b * c
  {
    assert b * c - a * c == (b - a) * c;
  }

  lemma {:induction false} DivBounds(d: int, step: int, q: int)
    requires step > 0 && d >= 0
    ensures q * step <= d ==> q <= d / step
    ensures q * step > d ==> q > d / step
  {
    var r := d / step;
    assert d == r * step + d % step;
    if q > r {
      MulMono(r + 1, q, step);
      assert (r + 1) * step == r * step + step;
    } else {
      MulMono(q, r, step);
    }
  }

  /** The source's loop, step by step: `train_end` and `fold_id` advance
      together and each iteration appends one fold. */
  method WalkForwardSplit(n: int, init: int, oos: int, step: int) returns (r: Result<seq<FoldSplit>>)
    requires Terminates(n, init, oos, step)
    ensures r == SplitSpec(n, init, oos, step)
  {
    if init >= n {
      return Err(ValueError("init_train >= n_samples"));
    }
    var folds: seq<FoldSplit> := [];
    var foldId: nat := 0;
    var trainEnd := init;
    while trainEnd + oos <= n
      invariant trainEnd == init + foldId * step
      invariant |folds| == foldId
      invariant forall k :: 0 <= k < foldId ==> folds[k] == FoldAt(n, init, oos, step, k)
      invariant foldId == 0 || init + oos <= n
      invariant init + oos <= n ==> step > 0 && foldId <= FoldCount(n, init, oos, step)
      decreases n - oos - trainEnd + step
    {
      DivBounds(n - init - oos, step, foldId);
      folds := folds + [FoldSplit(foldId, 0, trainEnd, trainEnd, Min(trainEnd + oos, n))];
      foldId := foldId + 1;
      trainEnd := trainEnd + step;
    }
    if |folds| == 0 {
      return Err(ValueError("no fold can be generated"));
    }
    DivBounds(n - init - oos, step, foldId);
    assert foldId == FoldCount(n, init, oos, step);
    assert folds == SplitSpec(n, init, oos, step).value;
    r := Ok(folds);
  }

  /** `expanding_window_split` is an alias of `walk_forward_split`. */
  method ExpandingWindowSplit(n: int, init: int, oos: int, step: int) returns (r: Result<seq<FoldSplit>>)
    requires Terminates(n, init, oos, step)
    ensures r == SplitSpec(n, init, oos, step)
  {
    r := WalkForwardSplit(n, init, oos, step);
  }

  /** Both error cases of the source, and nothing else, make the split fail;
      a successful split is never empty. */
  lemma SplitFailsExactly(n: int, init: int, oos: int, step: int)
    requires Terminates(n, init, oos, step)
    ensures SplitSpec(n, init, oos, step).Err? <==> (init >= n || init + oos > n)
    ensures SplitSpec(n, init, oos, step).Ok? ==> |SplitSpec(n, init, oos, step).value| >= 1
  {
  }

  /** Fold k ends its training window at init + k*step; the `min` never
      clips, so every test window has exactly `oos` rows and ends within
      the data. */
  lemma {:induction false} FoldBounds(n: int, init: int, oos: int, step: int, k: nat)
    requires Terminates(n, init, oos, step)
    requires SplitSpec(n, init, oos, step).Ok?
    requires k < |SplitSpec(n, init, oos, step).value|
    ensures var f := SplitSpec(n, init, oos, step).value[k];
      && f.foldId == k
      && f.trainStart == 0
      && f.trainEnd == init + k * step
      && f.testStart == f.trainEnd
      && f.testEnd == f.trainEnd + oos
      && f.testEnd <= n
  {
    var d := n - init - oos;
    assert k <= d / step;
    assert (d / step) * step <= d;
    assert k * step <= (d / step) * step by {
      assert (d / step - k) * step >= 0;
    }
  }

  /** No leakage: all training rows precede the test window, and the
      windows of a fold never overlap. */
  lemma NoLeakage(n: int, init: int, oos: int, step: int, k: nat, trainRow: int, testRow: int)
    requires Terminates(n, init, oos, step)
    requires SplitSpec(n, init, oos, step).Ok?
    requires k < |SplitSpec(n, init, oos, step).value|
    requires var f := SplitSpec(n, init, oos, step).value[k];
      f.trainStart <= trainRow < f.trainEnd && f.testStart <= testRow < f.testEnd
    ensures trainRow < testRow
  {
  }

  /** Folds come in time order: `train_end` strictly increases with the fold id. */
  lemma {:induction false} FoldsStrictlyIncrease(n: int, init: int, oos: int, step: int, i: nat, j: nat)
    requires Terminates(n, init, oos, step)
    requires SplitSpec(n, init, oos, step).Ok?
    requires i < j < |SplitSpec(n, init, oos, step).value|
    ensures SplitSpec(n, init, oos, step).value[i].trainEnd < SplitSpec(n, init, oos, step).value[j].trainEnd
    ensures SplitSpec(n, init, oos, step).value[i].testStart < SplitSpec(n, init, oos, step).value[j].testStart
  {
    FoldBounds(n, init, oos, step, i);
    FoldBounds(n, init, oos, step, j);
    assert j * step - i * step == (j - i) * step;
    assert (j - i) * step > 0;
  }

  /** With a zero-width window every fold's test range is empty. */
  lemma ZeroWindowGivesEmptyTests(n: int, init: int, step: int, k: nat)
    requires step > 0
    requires SplitSpec(n, init, 0, step).Ok?
    requires k < |SplitSpec(n, init, 0, step).value|
    ensures SplitSpec(n, init, 0, step).value[k].testStart == SplitSpec(n, init, 0, step).value[k].testEnd
  {
    FoldBounds(n, init, 0, step, k);
  }

  /** The worked example: 100 samples, 60 initial training rows, windows
      and steps of 10 give the test windows [60,70), [70,80), [80,90), [90,100). */
  lemma HundredSamplesExample()
    ensures SplitSpec(100, 60, 10, 10) == Ok([
      FoldSplit(0, 0, 60, 60, 70),
      FoldSplit(1, 0, 70, 70, 80),
      FoldSplit(2, 0, 80, 80, 90),
      FoldSplit(3, 0, 90, 90, 100)])
  {
    var s := SplitSpec(100, 60, 10, 10).value;
    assert |s| == 4;
    assert s[0] == FoldAt(100, 60, 10, 10, 0);
    assert s[1] == FoldAt(100, 60, 10, 10, 1);
    assert s[2] == FoldAt(100, 60, 10, 10, 2);
    assert s[3] == FoldAt(100, 60, 10, 10, 3);
    assert s == [s[0], s[1], s[2], s[3]];
  }

  /** A training window of 95 out of 100 rows leaves no room for a window of 10. */
  lemma NoFoldExample()
    ensures SplitSpec(100, 95, 10, 5).Err?
  {
  }
}
