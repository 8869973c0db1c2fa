/** What a reader loop guarantees about the rows, the saves and the prompts,
    derived from the closed form of `ScanReference`. */
module ScanProperties {
  import opened Rows
  import opened Workbook
  import opened ScanLoop
  import opened ScanReference

  /** Every scan is preceded by the wait for that row's card and followed at
      once by a save of the rows as they are after the scan; the `k`-th scan
      writes the `k`-th card. Conversely, every save comes right after a scan,
      so there are no other saves. */
  ghost predicate ScansAwaitedAndSaved(log: seq<Event>, data: seq<Row>, uids: seq<string>)
  {
    && (forall j :: 0 <= j < |log| && log[j].Scanned? ==>
         && log[j].index < |data| && log[j].index < |uids|
         && log[j].uid == uids[log[j].index]
         && 0 < j && log[j - 1] == Awaiting(log[j].index)
         && j + 1 < |log| && log[j + 1] == Saved(AfterScans(data, uids, log[j].index + 1)))
    && (forall j :: 0 <= j < |log| && log[j].Saved? ==> 0 < j && log[j - 1].Scanned?)
  }

  /** Joining two well-ordered logs gives a well-ordered log. */
  lemma ScansAwaitedAndSavedAppend(a: seq<Event>, b: seq<Event>, data: seq<Row>, uids: seq<string>)
    requires ScansAwaitedAndSaved(a, data, uids) && ScansAwaitedAndSaved(b, data, uids)
    ensures ScansAwaitedAndSaved(a + b, data, uids)
  {
  }

  /** `Collect` on logs of one and of three events. */
  lemma CollectOne<T>(log: seq<Event>, pick: Event -> seq<T>)
    requires |log| == 1
    ensures Collect(log, pick) == pick(log[0])
  {
  }

  lemma CollectThree<T>(log: seq<Event>, pick: Event -> seq<T>)
    requires |log| == 3
    ensures Collect(log, pick) == pick(log[0]) + pick(log[1]) + pick(log[2])
  {
    var rest := log[1..];
    var last := rest[1..];
    assert Collect(last[1..], pick) == [];
    assert Collect(last, pick) == pick(log[2]);
    assert Collect(rest, pick) == pick(log[1]) + pick(log[2]);
  }

  lemma {:induction false} ScanLogOrdered(data: seq<Row>, uids: seq<string>, n: nat)
    requires n <= |data| && n <= |uids|
    ensures ScansAwaitedAndSaved(ScanLog(data, uids, n), data, uids)
  {
    if n > 0 {
      ScanLogOrdered(data, uids, n - 1);
      ScansAwaitedAndSavedAppend(ScanLog(data, uids, n - 1), RowEvents(data, uids, n - 1), data, uids);
    }
  }

  lemma {:induction false} ScanLogSnapshots(data: seq<Row>, uids: seq<string>, n: nat)
    requires n <= |data| && n <= |uids|
    ensures |Snapshots(ScanLog(data, uids, n))| == n
    ensures forall i :: 0 <= i < n ==> Snapshots(ScanLog(data, uids, n))[i] == AfterScans(data, uids, i + 1)
  {
    if n > 0 {
      ScanLogSnapshots(data, uids, n - 1);
      var row := RowEvents(data, uids, n - 1);
      CollectAppend(ScanLog(data, uids, n - 1), row, SnapshotOf);
      CollectThree(row, SnapshotOf);
    }
  }

  lemma {:induction false} ScanLogAwaited(data: seq<Row>, uids: seq<string>, n: nat)
    requires n <= |data| && n <= |uids|
    ensures |AwaitedRows(ScanLog(data, uids, n))| == n
    ensures forall i :: 0 <= i < n ==> AwaitedRows(ScanLog(data, uids, n))[i] == i
  {
    if n > 0 {
      ScanLogAwaited(data, uids, n - 1);
      var row := RowEvents(data, uids, n - 1);
      CollectAppend(ScanLog(data, uids, n - 1), row, AwaitedOf);
      CollectThree(row, AwaitedOf);
    }
  }

  lemma {:induction false} ScanLogAsksNothing(data: seq<Row>, uids: seq<string>, n: nat)
    requires n <= |data| && n <= |uids|
    ensures Answers(ScanLog(data, uids, n)) == []
  {
    if n > 0 {
      ScanLogAsksNothing(data, uids, n - 1);
      var row := RowEvents(data, uids, n - 1);
      CollectAppend(ScanLog(data, uids, n - 1), row, AskedOf);
      CollectThree(row, AskedOf);
    }
  }

  /** Choosing anything but "yes" asks once and stops: no card is awaited,
      nothing is saved and the rows are returned as loaded. */
  lemma CancelLeavesDataUntouched(answer: string, data: seq<Row>, uids: seq<string>)
    requires answer != "yes"
    ensures var r := Run(answer, data, uids);
      && r.phase == Cancelled && r.rows == data
      && AwaitedRows(r.log) == [] && Snapshots(r.log) == []
  {
    CollectOne([Asked(answer)], AwaitedOf);
    CollectOne([Asked(answer)], SnapshotOf);
  }

  /** The confirmation prompt is shown exactly once, before anything else,
      whatever the answer and however many cards arrive. */
  lemma {:induction false} ConfirmationAskedOnce(answer: string, data: seq<Row>, uids: seq<string>)
    ensures var r := Run(answer, data, uids);
      r.log[0] == Asked(answer) && Answers(r.log) == [answer]
  {
    RunMatchesReference(answer, data, uids);
    CollectOne([Asked(answer)], AskedOf);
    if answer == "yes" {
      var m := Min(|data|, |uids|);
      ScanLogAsksNothing(data, uids, m);
      CollectAppend([Asked(answer)], ScanLog(data, uids, m), AskedOf);
      if |uids| < |data| {
        CollectOne([Awaiting(m)], AskedOf);
        CollectAppend([Asked(answer)] + ScanLog(data, uids, m), [Awaiting(m)], AskedOf);
      }
    }
  }

  /** Each scanned row holds its own card's UID: the `k`-th card goes to the
      `k`-th row, replacing whatever the cell held before. */
  lemma ScannedRowsHoldTheirCard(data: seq<Row>, uids: seq<string>)
    ensures var r := Run("yes", data, uids);
      forall k :: 0 <= k < |data| && k < |uids| ==>
        SecuredLrn in r.rows[k] && r.rows[k][SecuredLrn] == uids[k]
  {
    RunMatchesReference("yes", data, uids);
  }

  /** With at least as many cards as rows the loop completes and every row
      holds the card presented in its turn. */
  lemma InOrderAssignment(data: seq<Row>, uids: seq<string>)
    requires |data| <= |uids|
    ensures var r := Run("yes", data, uids);
      && r.phase == Done
      && forall k :: 0 <= k < |data| ==> SecuredLrn in r.rows[k] && r.rows[k][SecuredLrn] == uids[k]
  {
    RunMatchesReference("yes", data, uids);
  }

  /** Only the target column is ever written: the row count and order stay,
      every other column of every row keeps its value, and rows not reached
      (all rows, on cancel) are entirely unchanged. */
  lemma OnlyTargetColumnWritten(answer: string, data: seq<Row>, uids: seq<string>)
    ensures var r := Run(answer, data, uids);
      && |r.rows| == |data|
      && (forall k :: 0 <= k < |data| ==> AgreeOffTarget(r.rows[k], data[k]))
      && (forall k :: 0 <= k < |data| && (answer != "yes" || |uids| <= k) ==> r.rows[k] == data[k])
  {
    RunMatchesReference(answer, data, uids);
  }

  /** The saves of a confirmed session are exactly the row lists after the
      first, second, ... scan. */
  lemma {:induction false} SnapshotsOfRun(data: seq<Row>, uids: seq<string>)
    ensures var saves := Snapshots(Run("yes", data, uids).log);
      && |saves| == Min(|data|, |uids|)
      && forall i :: 0 <= i < |saves| ==> saves[i] == AfterScans(data, uids, i + 1)
  {
    RunMatchesReference("yes", data, uids);
    var m := Min(|data|, |uids|);
    ScanLogSnapshots(data, uids, m);
    CollectOne([Asked("yes")], SnapshotOf);
    CollectAppend([Asked("yes")], ScanLog(data, uids, m), SnapshotOf);
    if |uids| < |data| {
      CollectOne([Awaiting(m)], SnapshotOf);
      CollectAppend([Asked("yes")] + ScanLog(data, uids, m), [Awaiting(m)], SnapshotOf);
    }
  }

  /** One save per scan, in scan order: the `i`-th saved row list has rows
      `0..i` holding their cards and every later row as loaded. */
  lemma OneSavePerScan(data: seq<Row>, uids: seq<string>)
    ensures var saves := Snapshots(Run("yes", data, uids).log);
      && |saves| == Min(|data|, |uids|)
      && forall i :: 0 <= i < |saves| ==>
           && |saves[i]| == |data|
           && (forall k :: 0 <= k <= i ==> saves[i][k] == Assign(data[k], uids[k]))
           && (forall k :: i < k < |data| ==> saves[i][k] == data[k])
  {
    SnapshotsOfRun(data, uids);
  }

  /** Every scan waits for its own row's card first and is saved at once,
      before the loop moves to the next row. */
  lemma {:induction false} EveryScanAwaitedThenSaved(answer: string, data: seq<Row>, uids: seq<string>)
    ensures ScansAwaitedAndSaved(Run(answer, data, uids).log, data, uids)
  {
    RunMatchesReference(answer, data, uids);
    if answer == "yes" {
      var m := Min(|data|, |uids|);
      ScanLogOrdered(data, uids, m);
      ScansAwaitedAndSavedAppend([Asked(answer)], ScanLog(data, uids, m), data, uids);
      if |uids| < |data| {
        ScansAwaitedAndSavedAppend([Asked(answer)] + ScanLog(data, uids, m), [Awaiting(m)], data, uids);
      }
    }
  }

  /** Cards are awaited for the rows in file order, one row at a time: for
      every row when there are enough cards, and otherwise up to and
      including the first row left without a card. */
  lemma {:induction false} RowsAwaitedInOrder(data: seq<Row>, uids: seq<string>)
    ensures var r := Run("yes", data, uids);
      && |AwaitedRows(r.log)| == Min(|data|, |uids| + 1)
      && forall i :: 0 <= i < |AwaitedRows(r.log)| ==> AwaitedRows(r.log)[i] == i
  {
    RunMatchesReference("yes", data, uids);
    var m := Min(|data|, |uids|);
    ScanLogAwaited(data, uids, m);
    CollectOne([Asked("yes")], AwaitedOf);
    CollectAppend([Asked("yes")], ScanLog(data, uids, m), AwaitedOf);
    if |uids| < |data| {
      CollectOne([Awaiting(m)], AwaitedOf);
      CollectAppend([Asked("yes")] + ScanLog(data, uids, m), [Awaiting(m)], AwaitedOf);
    }
  }

  /** A sheet without data rows completes right after the confirmation: no
      card is awaited and nothing is saved. */
  lemma EmptyInputFinishesImmediately(uids: seq<string>)
    ensures Run("yes", [], uids) == Session([], Done, [Asked("yes")])
  {
  }

  /** With fewer cards than rows the loop stays waiting for the first row
      left, and the file's last save shows exactly the scans made. */
  lemma {:induction false} WaitsWhenCardsRunOut(data: seq<Row>, uids: seq<string>)
    requires |uids| < |data|
    ensures var r := Run("yes", data, uids);
      && r.phase == WaitingAt(|uids|)
      && r.log[|r.log| - 1] == Awaiting(|uids|)
      && r.rows == AfterScans(data, uids, |uids|)
      && |Snapshots(r.log)| == |uids|
      && (|uids| > 0 ==> Snapshots(r.log)[|uids| - 1] == r.rows)
  {
    RunMatchesReference("yes", data, uids);
    SnapshotsOfRun(data, uids);
  }

  /** Splitting the cards into two batches changes nothing: the session
      after the second batch continues from where the first one left it. */
  lemma {:induction false} FeedInBatches(s: Session, a: seq<string>, b: seq<string>)
    requires Valid(s)
    ensures Feed(s, a + b) == Feed(Feed(s, a), b)
    decreases |a|
  {
    if |a| == 0 {
      assert a + b == b;
    } else {
      assert (a + b)[0] == a[0];
      assert (a + b)[1..] == a[1..] + b;
      FeedInBatches(Deliver(s, a[0]), a[1..], b);
    }
  }

  /** Once every row has its card, further cards are not listened for and
      change nothing. */
  lemma ExtraCardsIgnored(answer: string, data: seq<Row>, uids: seq<string>, more: seq<string>)
    requires |data| <= |uids|
    ensures Run(answer, data, uids + more) == Run(answer, data, uids)
  {
    RunMatchesReference(answer, data, uids);
    FeedInBatches(Confirm(data, answer), uids, more);
  }

  /** The file always matches memory: after the session, reading the saved
      workbook back yields the final rows (the loaded file itself when nothing
      was saved) and the other sheets are untouched; and once `k` rows are
      scanned, the file already holds those `k` scans. */
  lemma {:induction false} DiskMatchesMemory(wb: Book, answer: string, data: seq<Row>, uids: seq<string>)
    requires Loaded(wb) && FirstSheet(wb) == data
    ensures var r := Run(answer, data, uids);
      var saves := Snapshots(r.log);
      && Loaded(Persist(wb, saves))
      && FirstSheet(Persist(wb, saves)) == r.rows
      && (forall name :: name in wb.sheets && name != wb.sheetNames[0] ==>
            name in Persist(wb, saves).sheets && Persist(wb, saves).sheets[name] == wb.sheets[name])
      && |saves| == (if answer == "yes" then Min(|data|, |uids|) else 0)
      && (forall k :: 0 < k <= |saves| ==>
              FirstSheet(Persist(wb, saves[..k])) == AfterScans(data, uids, k))
  {
    RunMatchesReference(answer, data, uids);
    if answer == "yes" {
      var m := Min(|data|, |uids|);
      SnapshotsOfRun(data, uids);
      var saves := Snapshots(Run(answer, data, uids).log);
      if m == 0 {
        AfterScansNone(data, uids);
      }
      forall k | 0 < k <= m
        ensures FirstSheet(Persist(wb, saves[..k])) == AfterScans(data, uids, k)
      {
        assert saves[..k][k - 1] == saves[k - 1];
      }
    } else {
      CancelLeavesDataUntouched(answer, data, uids);
    }
  }
}
