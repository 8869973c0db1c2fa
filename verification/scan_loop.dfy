/** The scan-loop controller that runs once a card reader is attached: one
    confirmation, then for each row in file order wait for one card, write its
    UID into the row and save all rows. Prompts, the reader and the file are
    abstracted: the operator's answer and the cards that reach the listener are
    inputs, and every interaction is recorded in an event log. */
module ScanLoop {
  import opened Rows

  /** Where the controller stands. `WaitingAt(k)`: a one-shot card listener is
      registered for row `k` and nothing else happens until a card arrives. */
  datatype Phase = Cancelled | Done | WaitingAt(cursor: nat)

  /** The controller's observable steps, in the order they happen. */
  datatype Event =
    | Asked(answer: string)            // the confirmation prompt returned `answer`
    | Awaiting(index: nat)             // a card listener was registered for row `index`
    | Scanned(index: nat, uid: string) // row `index` received `uid` in its target cell
    | Saved(snapshot: seq<Row>)        // the whole row list was written to the file

  /** The row list, the phase and everything that happened so far. */
  datatype Session = Session(rows: seq<Row>, phase: Phase, log: seq<Event>)

  /** A waiting controller always waits for an existing row. */
  predicate Valid(s: Session)
  {
    s.phase.WaitingAt? ==> s.phase.cursor < |s.rows|
  }

  /** Moves the loop to row `k`: register the listener for that row, or, past
      the last row, report that all scans are completed. */
  function Enter(rows: seq<Row>, k: nat, log: seq<Event>): Session
    requires k <= |rows|
  {
    if k < |rows| then Session(rows, WaitingAt(k), log + [Awaiting(k)])
    else Session(rows, Done, log)
  }

  /** The single confirmation. Only the answer "yes" starts the loop at the
      first row; any other answer cancels without touching the rows. */
  function Confirm(data: seq<Row>, answer: string): Session
  {
    if answer == "yes" then Enter(data, 0, [Asked(answer)])
    else Session(data, Cancelled, [Asked(answer)])
  }

  /** One card event. With a listener registered for row `k`, the row gets the
      UID, all rows are saved, and the loop moves to row `k + 1`; without a
      listener the card goes unnoticed. */
  function Deliver(s: Session, uid: string): (r: Session)
    requires Valid(s)
    ensures Valid(r) && |r.rows| == |s.rows|
    ensures !s.phase.WaitingAt? ==> r == s
    ensures s.phase.WaitingAt? ==>
              var k := s.phase.cursor;
              && SecuredLrn in r.rows[k] && r.rows[k][SecuredLrn] == uid
              && AgreeOffTarget(r.rows[k], s.rows[k])
              && (forall j :: 0 <= j < |s.rows| && j != k ==> r.rows[j] == s.rows[j])
              && r.phase == (if k + 1 < |s.rows| then WaitingAt(k + 1) else Done)
              && r.log == s.log + [Scanned(k, uid), Saved(r.rows)]
                               + (if k + 1 < |s.rows| then [Awaiting(k + 1)] else [])
  {
    match s.phase
    case WaitingAt(k) =>
      var rows := s.rows[k := Assign(s.rows[k], uid)];
      Enter(rows, k + 1, s.log + [Scanned(k, uid), Saved(rows)])
    case _ => s
  }

  /** Delivers the cards one after another. The log only grows, a cancelled
      session stays cancelled and a finished one ignores further cards. */
  function Feed(s: Session, uids: seq<string>): (r: Session)
    requires Valid(s)
    ensures Valid(r) && |r.rows| == |s.rows|
    ensures s.log <= r.log
    ensures r.phase.Cancelled? <==> s.phase.Cancelled?
    ensures !s.phase.WaitingAt? ==> r == s
    decreases |uids|
  {
    if |uids| == 0 then s
    else Feed(Deliver(s, uids[0]), uids[1..])
  }

  /** The controller for one attached reader: ask once, then feed the cards
      that reach the listener. When the cards run out before the rows, the
      session stays waiting; there is no timeout or error path. */
  function Run(answer: string, data: seq<Row>, uids: seq<string>): (r: Session)
    ensures Valid(r) && |r.rows| == |data|
    ensures |r.log| > 0 && r.log[0] == Asked(answer)
    ensures answer != "yes" ==> r == Session(data, Cancelled, [Asked(answer)])
    ensures answer == "yes" ==> !r.phase.Cancelled?
  {
    Feed(Confirm(data, answer), uids)
  }

  /** Picks some events out of a log and concatenates what `pick` returns. */
  function Collect<T>(log: seq<Event>, pick: Event -> seq<T>): seq<T>
  {
    if |log| == 0 then [] else pick(log[0]) + Collect(log[1..], pick)
  }

  function SnapshotOf(e: Event): seq<seq<Row>>
  {
    if e.Saved? then [e.snapshot] else []
  }

  function AwaitedOf(e: Event): seq<nat>
  {
    if e.Awaiting? then [e.index] else []
  }

  function AskedOf(e: Event): seq<string>
  {
    if e.Asked? then [e.answer] else []
  }

  /** The row lists written to the file, in save order. */
  function Snapshots(log: seq<Event>): seq<seq<Row>>
  {
    Collect(log, SnapshotOf)
  }

  /** The rows for which a card was awaited, in order. */
  function AwaitedRows(log: seq<Event>): seq<nat>
  {
    Collect(log, AwaitedOf)
  }

  /** The answers given to the confirmation prompt. */
  function Answers(log: seq<Event>): seq<string>
  {
    Collect(log, AskedOf)
  }

  lemma {:induction false} CollectAppend<T>(a: seq<Event>, b: seq<Event>, pick: Event -> seq<T>)
    ensures Collect(a + b, pick) == Collect(a, pick) + Collect(b, pick)
    decreases |a|
  {
    if |a| == 0 {
      assert a + b == b;
    } else {
      assert (a + b)[0] == a[0];
      assert (a + b)[1..] == a[1..] + b;
      CollectAppend(a[1..], b, pick);
    }
  }
}
