# Card-UID enrolment: the scan-loop controller

The program walks the rows of a spreadsheet (one person per row) and, once the
operator confirms, waits for a contactless card for each row in turn, writes the
card's UID into that row's `SecuredLRN` column and rewrites the workbook after
every scan. This project models that controller — the loop that runs once a
reader is attached — together with the data effect of a save, and proves what
it does to the rows, to the saved files and to the order of its interactions.

Files:

- `rows.dfy` (module `Rows`): a row as a map from column header to cell text,
  the target column `SecuredLRN`, and the unconditional write `Assign`.
- `workbook.dfy` (module `Workbook`): a workbook as sheet names plus decoded
  sheets; `SaveToExcel` replaces the first sheet with the current rows;
  `Persist` is the file after a series of saves.
- `scan_loop.dfy` (module `ScanLoop`): the controller as a step machine. The
  operator's answer and the cards that reach the one-shot card listener are
  inputs. A `Session` holds the rows, the `Phase` (`Cancelled`, `Done`, or
  `WaitingAt(k)` while the listener for row `k` is registered) and a log of
  `Event`s: `Asked`, `Awaiting`, `Scanned`, `Saved`. `Run` asks once and then
  feeds the cards one by one through `Deliver`.
- `scan_reference.dfy` (module `ScanReference`): a closed-form description of
  the session a run ends in (`AfterScans`, `ScanLog`, `Expected`), written
  without the step machine, and the proof that `Run` equals it on every input.
- `scan_properties.dfy` (module `ScanProperties`): the controller's guarantees,
  each as a lemma about `Run`.

Inputs and outputs that stand in for I/O: the confirmation is the value the
selection prompt returns (the code compares it with `'yes'`, and anything else
takes the cancel branch); the card stream is a finite `seq<string>` of UIDs; each
save is recorded as a `Saved(rows)` event, and `Persist` turns the list of saved
row lists into the file on disk. When the cards run out before the rows, the
model stops in `WaitingAt(k)`: the code has no timeout or error path that would
end that wait.

## Model

| member | source | states |
|---|---|---|
| Rows.Assign | app.js:83 | the target cell holds the scanned UID whatever it held before, the column is added if missing, and every other column keeps its value |
| Workbook.SaveToExcel | app.js:51-54 | reading the saved workbook back yields exactly the saved rows in order; the sheet names and every other sheet are unchanged |
| Workbook.Persist | app.js:51-54 | after a series of saves the first sheet shows only the latest saved rows, with no save the file is the loaded one, and other sheets survive every save |
| ScanLoop.Deliver | app.js:79-88 | a card for the waiting row `k` sets only that row's target cell, leaves all other rows and columns alone, saves the rows after the write, then waits for row `k + 1` or finishes; a card with no listener changes nothing |
| ScanLoop.Feed | app.js:74-89 | feeding cards keeps the row count, only extends the log, never cancels, and leaves a finished or cancelled session as it is |
| ScanLoop.Run | app.js:70-97 | the first event is the confirmation; an answer other than "yes" ends cancelled with the rows as loaded and nothing else logged; "yes" never ends cancelled |
| ScanReference.RunMatchesReference | app.js:69-101 | for every answer, row list and card list the controller ends in the closed-form session: the first min(rows, cards) rows scanned in order, each scan awaited, written and saved, then done or waiting at the first row left |
| ScanProperties.CancelLeavesDataUntouched | app.js:94-96 | cancelling awaits no card, saves nothing and returns the rows unchanged |
| ScanProperties.ConfirmationAskedOnce | app.js:70-97 | the confirmation is asked exactly once, as the first step, whatever the answer and the cards |
| ScanProperties.ScannedRowsHoldTheirCard | app.js:74-83 | the k-th card's UID is in the k-th row for every row that received a card, regardless of the cell's previous value |
| ScanProperties.InOrderAssignment | app.js:74-92 | with at least as many cards as rows the session is done and row k holds card k for every k |
| ScanProperties.OnlyTargetColumnWritten | app.js:74-83 | row count and order are preserved, every column other than `SecuredLRN` keeps its value in every row, and rows not reached (all rows, on cancel) are unchanged |
| ScanProperties.SnapshotsOfRun | app.js:79-88 | the saves are exactly the row lists after the first, second, ... scan, one per scan |
| ScanProperties.OneSavePerScan | app.js:79-88 | save i holds the card UIDs in rows 0..i and the loaded contents in every later row, and every save has all rows |
| ScanProperties.EveryScanAwaitedThenSaved | app.js:79-88 | each write is immediately preceded by the wait for that row's card and immediately followed by a save of the rows as they are after that write; the k-th write uses the k-th card; every save comes right after a write |
| ScanProperties.RowsAwaitedInOrder | app.js:74-80 | cards are awaited for rows 0, 1, 2, ... in file order: every row when cards suffice, otherwise up to and including the first row left without a card |
| ScanProperties.EmptyInputFinishesImmediately | app.js:73-93 | a sheet with no data rows is done right after the confirmation, with no card awaited and nothing saved |
| ScanProperties.WaitsWhenCardsRunOut | app.js:79-88 | with fewer cards than rows the session waits at the first row without a card, and the last save equals the rows after exactly the scans made |
| ScanProperties.FeedInBatches | app.js:74-89 | delivering the cards in two batches gives the same session as delivering them at once |
| ScanProperties.ExtraCardsIgnored | app.js:80-100 | once every row has its card, further cards change nothing |
| ScanProperties.DiskMatchesMemory | app.js:83-85 | after the session the file's first sheet equals the in-memory rows (the loaded rows when nothing was saved), other sheets are untouched, and after k scans the file already holds those k scans |

## Left out

- Filename prompt and its validation (app.js:23-37): terminal and file-system I/O.
- Workbook parsing and serialisation (`readXLSX`, `json_to_sheet`, `writeFile`; app.js:7-21, app.js:51-55): library calls. The model takes the decoded rows of the first sheet as input, treats encoding and decoding a sheet as lossless, and does not model the header order the library produces.
- Cell types: cells are text; numeric cells of the sheet are represented by their text.
- The card reader's event emitter and the promise around `reader.once('card')` (app.js:64-88): the cards are an input sequence. Cards presented between rows or before the confirmation reach no listener and are not in that sequence. The sequence may hold more cards than rows: once the session is `Done`, `Deliver` ignores them, as nothing listens after the loop and the reader is closed (app.js:100).
- Several attached readers: each `'reader'` event starts its own loop over the same rows (app.js:66-101). That is concurrency; the model has one reader.
- Console output: the row table, the "Please Scan" line (which prints `undefined` for a missing name column), the scanned-UID line, the completion and cancel messages, and the reader error and removal handlers (app.js:18, app.js:55, app.js:76, app.js:81, app.js:92, app.js:95, app.js:103-114).
- `reader.close()` after the loop (app.js:100).
- A rejected confirmation prompt (the operator aborts the selection at app.js:71): the async block at app.js:69-101 has no `catch` and the surrounding `try` in `main` does not cover it, so neither branch runs, `reader.close()` is skipped and the rejection goes unhandled; the rows and the file stay untouched. `Run` takes an answer the prompt returned and has no outcome for this case.
- A save that throws: `saveToExcel` is assumed to succeed; the code has no handling for a failing write inside the card handler.
- Behaviour the code does not have is not modelled: a save through a temporary file and rename, retrying a failed card read, ending the loop when the reader is removed (the code only logs the removal and keeps waiting), announcing "row N" for rows without names, keeping the original header order, and exit codes.
- Workbook.SaveToExcel: requires the workbook to have a first sheet name, as every workbook the loader returns does; an empty workbook is not modelled.
