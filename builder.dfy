/** Feature assembly (src/features/builder.py): registered feature sets are
    applied in order, each receiving the previous one's frame; then the
    missing-value policy is applied. Frames are values, so the caller's
    frame is never changed. */
module FeatureBuilder {
  import opened Wrappers
  import opened Frames
  import opened NameRegistry
  import opened FeatureRegistry
  import opened Strings

  /** The frame after applying the first |sets| feature sets, or the
      KeyError of the first unknown name. */
  function ApplySets(table: map<string, FeatureFn>, df: Frame, sets: seq<string>): Result<Frame>
  {
    if sets == [] then Ok(df)
    else
      var prev := ApplySets(table, df, sets[..|sets| - 1]);
      var name := sets[|sets| - 1];
      if prev.Err? then prev
      else if name !in table then Err(KeyError(name))
      else Ok(table[name](prev.value))
  }

  // ---------------------------------------------------------------------
  // Forward fill and row dropping

  /** One row forward-filled from the (already filled) row above it. */
  function FillRow(above: seq<Cell>, row: seq<Cell>): (r: seq<Cell>)
    ensures |r| == |row|
    ensures forall c :: 0 <= c < |row| ==> r[c] == if row[c].None? && c < |above| then above[c] else row[c]
  {
    seq(|row|, c requires 0 <= c < |row| => if row[c].None? && c < |above| then above[c] else row[c])
  }

  function FFillFrom(above: seq<Cell>, rows: seq<seq<Cell>>): (r: seq<seq<Cell>>)
    ensures |r| == |rows|
    decreases |rows|
  {
    if rows == [] then []
    else
      var first := FillRow(above, rows[0]);
      [first] + FFillFrom(first, rows[1..])
  }

  /** `DataFrame.ffill()`: each missing cell takes the last present value
      above it in its column, if there is one. */
  function FFill(df: Frame): Frame
  {
    Frame(df.columns, FFillFrom([], df.rows))
  }

  function CompleteRows(rows: seq<seq<Cell>>): (r: seq<seq<Cell>>)
    ensures |r| <= |rows|
    ensures forall i :: 0 <= i < |r| ==> Complete(r[i])
    ensures forall row :: row in r <==> row in rows && Complete(row)
  {
    if rows == [] then []
    else if Complete(rows[0]) then [rows[0]] + CompleteRows(rows[1..])
    else CompleteRows(rows[1..])
  }

  /** `DataFrame.dropna()`: keep the rows with no missing cell. */
  function DropNA(df: Frame): Frame
  {
    Frame(df.columns, CompleteRows(df.rows))
  }

  /** What `build_features` returns (or raises). */
  function BuildSpec(table: map<string, FeatureFn>, df: Frame, sets: seq<string>, dropNaMethod: string): Result<Frame>
  {
    var built := ApplySets(table, df, sets);
    if built.Err? then built
    else if dropNaMethod == "ffill_then_drop" then Ok(DropNA(FFill(built.value)))
    else if dropNaMethod == "drop" then Ok(DropNA(built.value))
    else Err(ValueError("unknown drop_na_method"))
  }

  /** `build_features`: the loop that reassigns the frame through each
      registered function, then the missing-value policy. */
  method BuildFeatures(reg: Registry<FeatureFn>, df: Frame, sets: seq<string>, dropNaMethod: string) returns (r: Result<Frame>)
    ensures r == BuildSpec(reg.table, df, sets, dropNaMethod)
  {
    var current := df;
    for i := 0 to |sets|
      invariant ApplySets(reg.table, df, sets[..i]) == Ok(current)
    {
      assert sets[..i + 1][..i] == sets[..i];
      var f := GetFeatureSet(reg, sets[i]);
      if f.Err? {
        r := Err(f.error);
        ApplySetsErrSticks(reg.table, df, sets, i + 1);
        return;
      }
      current := f.value(current);
    }
    assert sets[..|sets|] == sets;
    if dropNaMethod == "ffill_then_drop" {
      r := Ok(DropNA(FFill(current)));
    } else if dropNaMethod == "drop" {
      r := Ok(DropNA(current));
    } else {
      r := Err(ValueError("unknown drop_na_method"));
    }
  }

  lemma {:induction false} ApplySetsErrSticks(table: map<string, FeatureFn>, df: Frame, sets: seq<string>, i: nat)
    requires 0 < i <= |sets|
    requires ApplySets(table, df, sets[..i]).Err?
    ensures ApplySets(table, df, sets) == ApplySets(table, df, sets[..i])
    decreases |sets| - i
  {
    if i < |sets| {
      assert sets[..i + 1][..i] == sets[..i];
      ApplySetsErrSticks(table, df, sets, i + 1);
    } else {
      assert sets[..i] == sets;
    }
  }

  /** Building fails with KeyError exactly when some requested set is not
      registered, and then it names the first such set. */
  lemma {:induction false} UnknownSetFails(table: map<string, FeatureFn>, df: Frame, sets: seq<string>)
    ensures ApplySets(table, df, sets).Err? <==> exists i :: 0 <= i < |sets| && sets[i] !in table
    ensures ApplySets(table, df, sets).Err? ==>
      exists i :: 0 <= i < |sets| && sets[i] !in table && ApplySets(table, df, sets).error == KeyError(sets[i])
        && forall j :: 0 <= j < i ==> sets[j] in table
  {
    if sets != [] {
      var init := sets[..|sets| - 1];
      UnknownSetFails(table, df, init);
      assert forall j :: 0 <= j < |init| ==> init[j] == sets[j];
    }
  }

  /** Once a filled row is complete, every later filled row is too
      (for rows of one width). */
  lemma {:induction false} FilledStaysComplete(above: seq<Cell>, rows: seq<seq<Cell>>)
    requires Complete(above)
    requires forall i :: 0 <= i < |rows| ==> |rows[i]| == |above|
    ensures forall i :: 0 <= i < |rows| ==> Complete(FFillFrom(above, rows)[i])
    decreases |rows|
  {
    if rows != [] {
      var first := FillRow(above, rows[0]);
      assert Complete(first);
      FilledStaysComplete(first, rows[1..]);
      forall i | 0 <= i < |rows|
        ensures Complete(FFillFrom(above, rows)[i])
      {
        if i > 0 {
          assert FFillFrom(above, rows)[i] == FFillFrom(first, rows[1..])[i - 1];
        }
      }
    }
  }

  lemma {:induction false} DropsLeadingIncomplete(rows: seq<seq<Cell>>) returns (k: nat)
    requires forall i, j :: 0 <= i < j < |rows| && Complete(rows[i]) ==> Complete(rows[j])
    ensures k <= |rows|
    ensures CompleteRows(rows) == rows[k..]
    ensures forall i :: 0 <= i < k ==> !Complete(rows[i])
  {
    if rows == [] {
      k := 0;
    } else if Complete(rows[0]) {
      AllCompleteKept(rows);
      k := 0;
    } else {
      var k1 := DropsLeadingIncomplete(rows[1..]);
      k := k1 + 1;
      assert rows[1..][k1..] == rows[k..];
    }
  }

  lemma {:induction false} AllCompleteKept(rows: seq<seq<Cell>>)
    requires forall i :: 0 <= i < |rows| ==> Complete(rows[i])
    ensures CompleteRows(rows) == rows
  {
    if rows != [] {
      AllCompleteKept(rows[1..]);
    }
  }

  /** Under "ffill_then_drop" on a rectangular frame, the rows dropped are
      exactly a leading run of rows, the kept rows are the forward-filled
      rows from there on, and none of them has a missing value. */
  lemma FFillThenDropDropsPrefix(df: Frame) returns (k: nat)
    requires Rectangular(df)
    ensures var filled := FFill(df).rows;
      && k <= |filled|
      && DropNA(FFill(df)).rows == filled[k..]
      && (forall i :: 0 <= i < k ==> !Complete(filled[i]))
      && (forall i :: 0 <= i < |DropNA(FFill(df)).rows| ==> Complete(DropNA(FFill(df)).rows[i]))
      && DropNA(FFill(df)).columns == df.columns
  {
    var filled := FFill(df).rows;
    forall i, j | 0 <= i < j < |filled| && Complete(filled[i])
      ensures Complete(filled[j])
    {
      SuffixOfFill([], df.rows, i);
      var rest := df.rows[i + 1..];
      FilledStaysComplete(filled[i], rest);
      assert filled[j] == FFillFrom(filled[i], rest)[j - i - 1];
    }
    k := DropsLeadingIncomplete(filled);
  }

  /** Filled row i is the fill of row i from filled row i - 1, and the rows
      after it are the continuation of the fill from there. */
  lemma {:induction false} SuffixOfFill(above: seq<Cell>, rows: seq<seq<Cell>>, i: nat)
    requires i < |rows|
    requires |above| == 0 || |above| == |rows[0]|
    requires forall a :: 0 <= a < |rows| ==> |rows[a]| == |rows[0]|
    ensures |FFillFrom(above, rows)[i]| == |rows[0]|
    ensures FFillFrom(above, rows)[i + 1..] == FFillFrom(FFillFrom(above, rows)[i], rows[i + 1..])
    decreases i
  {
    var first := FillRow(above, rows[0]);
    if i > 0 {
      SuffixOfFill(first, rows[1..], i - 1);
      assert rows[1..][i..] == rows[i + 1..];
    }
  }

  // ---------------------------------------------------------------------
  // Feature columns

  /** Raw price and volume columns, the label and the date. */
  const Excluded: set<string> := {"open", "high", "low", "close", "volume",
    "quote_volume", "trades", "taker_buy_base", "taker_buy_quote", "label", "date"}

  /** `get_feature_columns`: the columns whose lower-cased name is not
      excluded, in their original order. */
  function FeatureColumns(columns: seq<string>): (r: seq<string>)
    ensures |r| <= |columns|
    ensures forall i :: 0 <= i < |r| ==> Lower(r[i]) !in Excluded
  {
    if columns == [] then []
    else if Lower(columns[0]) in Excluded then FeatureColumns(columns[1..])
    else [columns[0]] + FeatureColumns(columns[1..])
  }

  /** A column is kept exactly when it is one of the input columns and its
      lower-cased name is not excluded. */
  lemma {:induction false} FeatureColumnsMembers(columns: seq<string>)
    ensures forall c :: c in FeatureColumns(columns) <==> c in columns && Lower(c) !in Excluded
  {
    if columns != [] {
      FeatureColumnsMembers(columns[1..]);
      assert forall c :: c in columns <==> c == columns[0] || c in columns[1..];
    }
  }

  /** Selection keeps the relative order: selecting from two consecutive
      runs of columns gives the two selections one after the other. */
  lemma {:induction false} FeatureColumnsKeepOrder(a: seq<string>, b: seq<string>)
    ensures FeatureColumns(a + b) == FeatureColumns(a) + FeatureColumns(b)
  {
    if a == [] {
      assert a + b == b;
    } else {
      var x, rest := a[0], a[1..];
      var head := if Lower(x) in Excluded then [] else [x];
      assert a + b == [x] + (rest + b);
      assert a == [x] + rest;
      FeatureColumnsCons(x, rest + b);
      FeatureColumnsCons(x, rest);
      FeatureColumnsKeepOrder(rest, b);
      calc {
        FeatureColumns(a + b);
        head + FeatureColumns(rest + b);
        head + (FeatureColumns(rest) + FeatureColumns(b));
        (head + FeatureColumns(rest)) + FeatureColumns(b);
        FeatureColumns(a) + FeatureColumns(b);
      }
    }
  }

  lemma FeatureColumnsCons(x: string, rest: seq<string>)
    ensures FeatureColumns([x] + rest) == (if Lower(x) in Excluded then [] else [x]) + FeatureColumns(rest)
  {
    assert ([x] + rest)[0] == x && ([x] + rest)[1..] == rest;
  }

  /** Raw columns are removed whatever their case, so "Close" goes too. */
  lemma RawColumnsRemoved()
    ensures FeatureColumns(["Close", "rsi_14"]) == ["rsi_14"]
  {
    var close := Lower("Close");
    assert close[0] == 'c' && close[1] == 'l' && close[2] == 'o' && close[3] == 's' && close[4] == 'e';
    assert close == "close";
    assert close in Excluded;
    var cols := ["Close", "rsi_14"];
    assert cols[1..] == ["rsi_14"];
    assert FeatureColumns(cols) == FeatureColumns(["rsi_14"]);
    assert Lower("rsi_14") == "rsi_14";
  }
}
