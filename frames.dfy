/** A data frame as the pipeline uses it: named columns and rows of cells,
    where a cell may be missing (NaN). */
module Frames {
  import opened Wrappers

  type Cell = Option<real>

  datatype Frame = Frame(columns: seq<string>, rows: seq<seq<Cell>>)

  /** Every row has one cell per column. */
  predicate Rectangular(f: Frame)
  {
    forall i :: 0 <= i < |f.rows| ==> |f.rows[i]| == |f.columns|
  }

  /** A row with no missing cell. */
  predicate Complete(row: seq<Cell>)
  {
    forall c :: 0 <= c < |row| ==> row[c].Some?
  }
}
