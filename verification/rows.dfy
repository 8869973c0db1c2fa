/** Spreadsheet rows as the scan loop sees them. */
module Rows {

  /** One data row of the first sheet: column header to cell text. A blank cell
      has no key at all, as the rows decoded from a sheet omit empty cells. */
  type Row = map<string, string>

  /** The column into which a scanned card UID is written. */
  const SecuredLrn: string := "SecuredLRN"

  /** Writes `uid` into the row's target cell. The write is unconditional: a
      previous value is replaced and a missing column is added; every other
      column keeps its value. */
  function Assign(row: Row, uid: string): (r: Row)
    ensures SecuredLrn in r && r[SecuredLrn] == uid
    ensures r.Keys == row.Keys + {SecuredLrn}
    ensures AgreeOffTarget(r, row)
  {
    row[SecuredLrn := uid]
  }

  /** Two rows hold the same columns with the same values, ignoring the target
      column. */
  ghost predicate AgreeOffTarget(a: Row, b: Row)
  {
    && a.Keys - {SecuredLrn} == b.Keys - {SecuredLrn}
    && forall key :: key in a && key != SecuredLrn ==> key in b && a[key] == b[key]
  }
}
