/** The `trends` table: rows are only ever appended, never replaced. */
module Trends {
  import opened Wrappers

  /**
    * One trends row. Period bounds are day numbers (day 0 is a Monday); the database's
    * autoincrement id and creation time are not modelled.
    */
  datatype TrendRow = TrendRow(metric: string, period: string, start: int, end: int, value: real, comparison: Option<real>)

  class TrendLedger {
    var rows: seq<TrendRow>

    constructor ()
      ensures rows == []
    {
      rows := [];
    }

    /** A plain INSERT: the new row goes after all earlier rows, which stay as they were. */
    method Insert(row: TrendRow)
      modifies this
      ensures rows == old(rows) + [row]
    {
      rows := rows + [row];
    }
  }
}
