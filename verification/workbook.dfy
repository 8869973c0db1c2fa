/** The persistent effect of saving: the workbook is rewritten with its first
    sheet replaced by the current rows. Parsing and serialisation belong to the
    spreadsheet library and are abstracted to "a sheet holds a row sequence". */
module Workbook {
  import opened Rows

  /** A workbook: the sheet names in order, and each sheet's decoded rows. */
  datatype Book = Book(sheetNames: seq<string>, sheets: map<string, seq<Row>>)

  /** A workbook as the loader produces it: it has a first sheet. */
  predicate Loaded(wb: Book)
  {
    |wb.sheetNames| > 0 && wb.sheetNames[0] in wb.sheets
  }

  /** The rows the loader reads back from a workbook. */
  function FirstSheet(wb: Book): seq<Row>
    requires Loaded(wb)
  {
    wb.sheets[wb.sheetNames[0]]
  }

  /** Replaces the first sheet with `data`, in order, and keeps everything
      else. Reading the result back yields `data` again. */
  function SaveToExcel(wb: Book, data: seq<Row>): (r: Book)
    requires |wb.sheetNames| > 0
    ensures Loaded(r) && FirstSheet(r) == data
    ensures r.sheetNames == wb.sheetNames
    ensures r.sheets.Keys == wb.sheets.Keys + {wb.sheetNames[0]}
    ensures forall name :: name in wb.sheets && name != wb.sheetNames[0] ==>
              r.sheets[name] == wb.sheets[name]
  {
    Book(wb.sheetNames, wb.sheets[wb.sheetNames[0] := data])
  }

  /** The file on disk after a series of saves, oldest first. Only the latest
      save is visible in the first sheet; with no save the file is unchanged. */
  function Persist(wb: Book, snapshots: seq<seq<Row>>): (r: Book)
    requires |wb.sheetNames| > 0
    ensures r.sheetNames == wb.sheetNames
    ensures |snapshots| == 0 ==> r == wb
    ensures |snapshots| > 0 ==> Loaded(r) && FirstSheet(r) == snapshots[|snapshots| - 1]
    ensures forall name :: name in wb.sheets && name != wb.sheetNames[0] ==>
              name in r.sheets && r.sheets[name] == wb.sheets[name]
    decreases |snapshots|
  {
    if |snapshots| == 0 then wb
    else Persist(SaveToExcel(wb, snapshots[0]), snapshots[1..])
  }
}
