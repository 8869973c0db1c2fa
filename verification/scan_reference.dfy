/** A closed-form description of what one session produces, written without
    reference to the step machine, and the proof that the step machine meets
    it on every input. */
module ScanReference {
  import opened Rows
  import opened ScanLoop

  function Min(a: nat, b: nat): nat
  {
    if a <= b then a else b
  }

  /** The rows after the first `k` scans: row `i < k` holds the `i`-th card's
      UID, every later row is untouched. */
  function AfterScans(data: seq<Row>, uids: seq<string>, k: nat): (r: seq<Row>)
    requires k <= |data| && k <= |uids|
  {
    seq(|data|, i requires 0 <= i < |data| => if i < k then Assign(data[i], uids[i]) else data[i])
  }

  /** What happens for row `j`: its card is awaited, written and saved. */
  function RowEvents(data: seq<Row>, uids: seq<string>, j: nat): seq<Event>
    requires j < |data| && j < |uids|
  {
    [Awaiting(j), Scanned(j, uids[j]), Saved(AfterScans(data, uids, j + 1))]
  }

  /** The events of the first `n` rows, in row order. */
  function ScanLog(data: seq<Row>, uids: seq<string>, n: nat): seq<Event>
    requires n <= |data| && n <= |uids|
  {
    if n == 0 then [] else ScanLog(data, uids, n - 1) + RowEvents(data, uids, n - 1)
  }

  /** The session a reader loop ends in. A cancelling answer leaves the rows
      as loaded. Otherwise the first `m` rows are scanned, `m` being the
      number of rows or of cards, whichever is smaller; the session is done
      when every row got a card, and otherwise waits at the first row left. */
  function Expected(answer: string, data: seq<Row>, uids: seq<string>): Session
  {
    if answer != "yes" then Session(data, Cancelled, [Asked(answer)])
    else
      var m := Min(|data|, |uids|);
      var log := [Asked(answer)] + ScanLog(data, uids, m);
      if |data| <= |uids| then Session(AfterScans(data, uids, m), Done, log)
      else Session(AfterScans(data, uids, m), WaitingAt(m), log + [Awaiting(m)])
  }

  /** The session just before row `k` is processed, after `k` scans. */
  function AtRow(data: seq<Row>, uids: seq<string>, k: nat): Session
    requires k <= |data| && k <= |uids|
  {
    Enter(AfterScans(data, uids, k), k, [Asked("yes")] + ScanLog(data, uids, k))
  }

  lemma AfterScansNone(data: seq<Row>, uids: seq<string>)
    ensures AfterScans(data, uids, 0) == data
  {
  }

  /** A card for the waiting row `k` moves the session to row `k + 1`. */
  lemma ScanStep(data: seq<Row>, uids: seq<string>, k: nat)
    requires k < |data| && k < |uids|
    ensures Deliver(AtRow(data, uids, k), uids[k]) == AtRow(data, uids, k + 1)
  {
    var before := AfterScans(data, uids, k);
    var after := AfterScans(data, uids, k + 1);
    assert before[k := Assign(before[k], uids[k])] == after;
    var pre := [Asked("yes")] + ScanLog(data, uids, k);
    assert pre + [Awaiting(k)] + [Scanned(k, uids[k]), Saved(after)]
        == [Asked("yes")] + ScanLog(data, uids, k + 1);
  }

  /** From row `k` on, the remaining cards lead to the expected session. */
  lemma {:induction false} FeedFrom(data: seq<Row>, uids: seq<string>, k: nat)
    requires k <= |data| && k <= |uids|
    ensures Feed(AtRow(data, uids, k), uids[k..]) == Expected("yes", data, uids)
    decreases |uids| - k
  {
    if k == |data| {
      assert AtRow(data, uids, k).phase == Done;
    } else if k == |uids| {
      assert uids[k..] == [];
    } else {
      ScanStep(data, uids, k);
      assert uids[k..][0] == uids[k];
      assert uids[k..][1..] == uids[k + 1..];
      FeedFrom(data, uids, k + 1);
    }
  }

  /** The step machine and the closed form agree on every input. */
  lemma {:induction false} RunMatchesReference(answer: string, data: seq<Row>, uids: seq<string>)
    ensures Run(answer, data, uids) == Expected(answer, data, uids)
  {
    if answer == "yes" {
      AfterScansNone(data, uids);
      assert Confirm(data, answer) == AtRow(data, uids, 0);
      assert uids[0..] == uids;
      FeedFrom(data, uids, 0);
    }
  }
}
