/** Subscribe first, replay afterwards: the stitch of live and replayed events of one session,
    under every interleaving with inserts and publications. */
module SseStitch {
  import opened Prelude
  import opened Sequences
  import opened Records
  import opened EventJournal
  import opened EventStream

  /** The replay is not asked for, asked for, read but not delivered, or delivered. */
  datatype Phase = Idle | Asked | Fetched(rows: seq<EventRow>) | Delivered

  /** One session's log, which rows are inserted but not yet published, and one response.
      `live` are the rows published while the response was subscribed, `joined` and `fetched`
      the log lengths at the subscription and at the read of the replay. */
  datatype Stitch = Stitch(session: SessionId, after: After, log: seq<EventRow>, unpublished: set<nat>,
                           phase: Phase, output: Output, live: set<nat>, joined: nat, fetched: nat)

  datatype Step =
    | Insert(row: EventRow)
    | Publish(index: nat)
    | Subscribe
    | Fetch
    | Deliver

  predicate Subscribed(st: Stitch) { !st.phase.Idle? }

  /** The row the journal would write next. */
  predicate IsNext(st: Stitch, row: EventRow) {
    && row.sessionId == st.session && row.seqNo == |st.log| + 1
    && forall i :: 0 <= i < |st.log| ==> st.log[i].id != row.id
  }

  function Next(st: Stitch, step: Step): Stitch {
    match step
    case Insert(row) =>
      if IsNext(st, row) then st.(log := st.log + [row], unpublished := st.unpublished + {|st.log|}) else st
    case Publish(i) =>
      if i !in st.unpublished || i >= |st.log| then st
      else if !Subscribed(st) then st.(unpublished := st.unpublished - {i})
      else st.(unpublished := st.unpublished - {i}, output := Sent(st.output, st.log[i]), live := st.live + {i})
    case Subscribe =>
      if st.phase.Idle? then st.(phase := Asked, joined := |st.log|) else st
    case Fetch =>
      if st.phase.Asked? then st.(phase := Fetched(Replay(st.log, st.session, st.after)), fetched := |st.log|)
      else st
    case Deliver =>
      if st.phase.Fetched? then st.(phase := Delivered, output := SentAll(st.output, st.phase.rows)) else st
  }

  function Exec(st: Stitch, steps: seq<Step>): Stitch {
    if steps == [] then st else Next(Exec(st, steps[..|steps| - 1]), steps[|steps| - 1])
  }

  // ---- the log ----

  ghost predicate ValidSession(st: Stitch) {
    && (forall i :: 0 <= i < |st.log| ==> st.log[i].seqNo == i + 1 && st.log[i].sessionId == st.session)
    && (forall i, j :: 0 <= i < j < |st.log| ==> st.log[i].id != st.log[j].id)
    && (forall i :: i in st.unpublished ==> i < |st.log|)
  }

  /** How many leading rows the cursor skips in a log of length `n`. */
  function Skipped(after: After, n: nat): nat {
    match after
    case Absent => 0
    case NotANumber => n
    case Seq(k) => if k <= 0 then 0 else if k < n then k else n
  }

  lemma ReplayIsSuffix(st: Stitch)
    requires ValidSession(st)
    ensures Replay(st.log, st.session, st.after) == st.log[Skipped(st.after, |st.log|)..]
  {
    FilterAll(st.log, OfSession(st.session));
    hide Filter, Replay;
    assert SessionLog(st.log, st.session) == st.log;
    ReplayMeaning(st.log, st.session, st.after);
  }

  // ---- none twice ----

  /** The ids sent are those of the rows written, each once. */
  ghost predicate SentOnce(output: Output) {
    && (forall i :: 0 <= i < |output.rows| ==> output.rows[i].id in output.sent)
    && (forall id :: id in output.sent ==> exists i :: 0 <= i < |output.rows| && output.rows[i].id == id)
    && (forall i, j :: 0 <= i < j < |output.rows| ==> output.rows[i].id != output.rows[j].id)
  }

  lemma SendKeepsOnce(output: Output, row: EventRow)
    requires SentOnce(output)
    ensures SentOnce(Sent(output, row))
  {
    var after := Sent(output, row);
    if row.id !in output.sent {
      assert after.rows[|output.rows|] == row;
      forall id | id in after.sent ensures exists i :: 0 <= i < |after.rows| && after.rows[i].id == id {
        if id in output.sent {
          var i :| 0 <= i < |output.rows| && output.rows[i].id == id;
          assert after.rows[i].id == id;
        }
      }
    }
  }

  lemma {:induction false} SendAllKeepsOnce(output: Output, rows: seq<EventRow>)
    requires SentOnce(output)
    ensures SentOnce(SentAll(output, rows))
  {
    hide SentOnce;
    if rows != [] {
      SendAllKeepsOnce(output, rows[..|rows| - 1]);
      SendKeepsOnce(SentAll(output, rows[..|rows| - 1]), rows[|rows| - 1]);
    }
  }

  predicate HasId(rows: seq<EventRow>, id: string) {
    exists i :: 0 <= i < |rows| && rows[i].id == id
  }

  lemma HasIdSnoc(rows: seq<EventRow>, id: string)
    requires rows != []
    ensures HasId(rows, id) <==> HasId(rows[..|rows| - 1], id) || rows[|rows| - 1].id == id
  {
    var front := rows[..|rows| - 1];
    if i :| 0 <= i < |rows| && rows[i].id == id {
      assert i < |front| ==> front[i].id == id;
    }
    if i :| 0 <= i < |front| && front[i].id == id {
      assert rows[i].id == id;
    }
  }

  lemma {:induction false} SendAllIds(output: Output, rows: seq<EventRow>, id: string)
    ensures id in SentAll(output, rows).sent <==> id in output.sent || HasId(rows, id)
  {
    if rows != [] {
      SendAllIds(output, rows[..|rows| - 1], id);
      HasIdSnoc(rows, id);
      hide HasId;
    }
  }

  lemma {:induction false} SendAllRows(output: Output, rows: seq<EventRow>, k: nat)
    requires k < |SentAll(output, rows).rows|
    ensures var row := SentAll(output, rows).rows[k]; row in output.rows || row in rows
  {
    if rows != [] {
      var front := SentAll(output, rows[..|rows| - 1]);
      if k < |front.rows| {
        SendAllRows(output, rows[..|rows| - 1], k);
      }
    }
  }

  // ---- exactly which rows are sent ----

  /** The rows already due: those published live and the delivered replay. */
  ghost predicate Due(st: Stitch, i: nat) {
    i in st.live || (st.phase.Delivered? && Skipped(st.after, st.fetched) <= i < st.fetched)
  }

  ghost predicate SentIsDue(st: Stitch) {
    forall i :: 0 <= i < |st.log| ==> (st.log[i].id in st.output.sent <==> Due(st, i))
  }

  ghost predicate RowsFromLog(st: Stitch) {
    forall k :: 0 <= k < |st.output.rows| ==> st.output.rows[k] in st.log
  }

  /** Every row after the subscription is published live or still to be published. */
  ghost predicate Bookkeeping(st: Stitch) {
    && (Subscribed(st) ==> st.joined <= |st.log|)
    && (st.phase.Fetched? || st.phase.Delivered? ==> st.joined <= st.fetched <= |st.log|)
    && (st.phase.Fetched? ==> st.phase.rows == st.log[Skipped(st.after, st.fetched)..st.fetched])
    && (forall i :: i in st.live ==> i < |st.log| && i !in st.unpublished)
    && (Subscribed(st) ==> forall i :: st.joined <= i < |st.log| ==> i in st.unpublished || i in st.live)
    && (st.phase.Idle? ==> st.live == {})
  }

  ghost predicate StitchInvariant(st: Stitch) {
    ValidSession(st) && SentOnce(st.output) && Bookkeeping(st) && SentIsDue(st) && RowsFromLog(st)
  }

  lemma InsertKeeps(st: Stitch, row: EventRow)
    requires StitchInvariant(st)
    ensures StitchInvariant(Next(st, Insert(row)))
  {
    var after := Next(st, Insert(row));
    if IsNext(st, row) {
      assert forall i :: 0 <= i < |st.log| ==> after.log[i] == st.log[i];
      assert after.log[|st.log|] == row;
      hide SentOnce;
      if st.phase.Fetched? {
        assert after.log[Skipped(st.after, st.fetched)..st.fetched] == st.log[Skipped(st.after, st.fetched)..st.fetched];
      }
    }
  }

  lemma PublishKeeps(st: Stitch, i: nat)
    requires StitchInvariant(st)
    ensures StitchInvariant(Next(st, Publish(i)))
  {
    if i in st.unpublished && i < |st.log| {
      SendKeepsOnce(st.output, st.log[i]);
      hide SentOnce;
    }
  }

  lemma FetchKeeps(st: Stitch)
    requires StitchInvariant(st)
    ensures StitchInvariant(Next(st, Fetch))
  {
    ReplayIsSuffix(st);
    hide SentOnce, Replay;
  }

  /** Ids are unique, so a slice of the log holds the id of row i exactly when it holds row i. */
  lemma IdInSlice(st: Stitch, low: nat, high: nat, i: nat)
    requires ValidSession(st) && low <= high <= |st.log| && i < |st.log|
    ensures HasId(st.log[low..high], st.log[i].id) <==> low <= i < high
  {
    var rows := st.log[low..high];
    if low <= i < high {
      assert rows[i - low].id == st.log[i].id;
    }
    if k :| 0 <= k < |rows| && rows[k].id == st.log[i].id {
      assert rows[k] == st.log[low + k];
    }
  }

  lemma DeliverSendsDue(st: Stitch)
    requires StitchInvariant(st) && st.phase.Fetched?
    ensures SentIsDue(Next(st, Deliver))
  {
    hide SentAll, HasId, SentOnce, RowsFromLog;
    var low := Skipped(st.after, st.fetched);
    var after := Next(st, Deliver);
    forall i | 0 <= i < |st.log| ensures st.log[i].id in after.output.sent <==> Due(after, i) {
      SendAllIds(st.output, st.phase.rows, st.log[i].id);
      IdInSlice(st, low, st.fetched, i);
      assert st.log[i].id in st.output.sent <==> Due(st, i);
    }
  }

  lemma DeliverFromLog(st: Stitch)
    requires StitchInvariant(st) && st.phase.Fetched?
    ensures RowsFromLog(Next(st, Deliver))
  {
    var after := Next(st, Deliver);
    assert forall row :: row in st.phase.rows ==> row in st.log;
    hide SentAll, SentOnce, SentIsDue;
    forall k | 0 <= k < |after.output.rows| ensures after.output.rows[k] in st.log {
      SendAllRows(st.output, st.phase.rows, k);
    }
  }

  lemma DeliverKeeps(st: Stitch)
    requires StitchInvariant(st)
    ensures StitchInvariant(Next(st, Deliver))
  {
    if st.phase.Fetched? {
      DeliverSendsDue(st);
      DeliverFromLog(st);
      SendAllKeepsOnce(st.output, st.phase.rows);
      hide SentOnce, SentAll, SentIsDue, RowsFromLog;
    }
  }

  lemma StepKeepsStitch(st: Stitch, step: Step)
    requires StitchInvariant(st)
    ensures StitchInvariant(Next(st, step))
  {
    hide SentOnce;
    match step
    case Insert(row) => InsertKeeps(st, row);
    case Publish(i) => PublishKeeps(st, i);
    case Subscribe =>
    case Fetch => FetchKeeps(st);
    case Deliver => DeliverKeeps(st);
  }

  lemma {:induction false} StitchHolds(st: Stitch, steps: seq<Step>)
    requires StitchInvariant(st)
    ensures StitchInvariant(Exec(st, steps))
  {
    hide Next, StitchInvariant;
    if steps != [] {
      StitchHolds(st, steps[..|steps| - 1]);
      StepKeepsStitch(Exec(st, steps[..|steps| - 1]), steps[|steps| - 1]);
    }
  }

  /** Before a request: any valid log, with some of its rows still to be published. */
  function Start(session: SessionId, after: After, log: seq<EventRow>, unpublished: set<nat>): Stitch {
    Stitch(session, after, log, unpublished, Idle, NOTHING_SENT, {}, 0, 0)
  }

  lemma StartIsValid(session: SessionId, after: After, log: seq<EventRow>, unpublished: set<nat>)
    requires ValidSession(Start(session, after, log, unpublished))
    ensures StitchInvariant(Start(session, after, log, unpublished))
  {}

  /** In every interleaving no row is sent twice, and once the replay is delivered and nothing is
      left to publish, exactly the rows past the cursor and the rows published live were sent. */
  lemma ExactlyOnce(session: SessionId, after: After, log: seq<EventRow>, unpublished: set<nat>, steps: seq<Step>)
    requires ValidSession(Start(session, after, log, unpublished))
    ensures
      var end := Exec(Start(session, after, log, unpublished), steps);
      && (forall i, j :: 0 <= i < j < |end.output.rows| ==> end.output.rows[i].id != end.output.rows[j].id)
      && (forall k :: 0 <= k < |end.output.rows| ==> end.output.rows[k] in end.log)
      && (end.phase.Delivered? && end.unpublished == {} ==>
            forall i :: 0 <= i < |end.log| ==>
              (end.log[i] in end.output.rows <==> PassesCursor(session, after)(end.log[i]) || i in end.live))
  {
    StartIsValid(session, after, log, unpublished);
    StitchHolds(Start(session, after, log, unpublished), steps);
    CursorIsKept(Start(session, after, log, unpublished), steps);
    Quiescent(Exec(Start(session, after, log, unpublished), steps));
    hide Exec, Bookkeeping, SentIsDue;
  }

  lemma {:induction false} CursorIsKept(st: Stitch, steps: seq<Step>)
    ensures Exec(st, steps).session == st.session && Exec(st, steps).after == st.after
  {
    hide Replay, Sent, SentAll;
    if steps != [] {
      CursorIsKept(st, steps[..|steps| - 1]);
    }
  }

  lemma Quiescent(st: Stitch)
    requires StitchInvariant(st)
    ensures st.phase.Delivered? && st.unpublished == {} ==>
      forall i :: 0 <= i < |st.log| ==>
        (st.log[i] in st.output.rows <==> PassesCursor(st.session, st.after)(st.log[i]) || i in st.live)
  {
    if st.phase.Delivered? && st.unpublished == {} {
      forall i | 0 <= i < |st.log|
        ensures st.log[i] in st.output.rows <==> PassesCursor(st.session, st.after)(st.log[i]) || i in st.live
      {
        RowIsSent(st, i);
        assert st.log[i].seqNo == i + 1;
      }
    }
  }

  lemma RowIsSent(st: Stitch, i: nat)
    requires StitchInvariant(st) && i < |st.log|
    ensures st.log[i] in st.output.rows <==> Due(st, i)
  {
    if st.log[i].id in st.output.sent {
      var k :| 0 <= k < |st.output.rows| && st.output.rows[k].id == st.log[i].id;
      assert st.output.rows[k] in st.log;
    }
    if st.log[i] in st.output.rows {
      assert st.log[i].id in st.output.sent;
    }
  }

  // ---- resuming ----

  lemma {:induction false} OldRowsStayOld(st: Stitch, steps: seq<Step>)
    requires StitchInvariant(st) && st.unpublished == {} && st.live == {}
    ensures var end := Exec(st, steps);
      && |st.log| <= |end.log| && end.log[..|st.log|] == st.log
      && forall i :: 0 <= i < |st.log| ==> i !in end.unpublished && i !in end.live
  {
    hide Replay, Sent, SentAll, StitchInvariant;
    if steps != [] {
      OldRowsStayOld(st, steps[..|steps| - 1]);
    }
  }

  /** A row published before the request is sent exactly when it passes the cursor: none at all
      when the cursor is not a number, as with the event ids the frames themselves carry. */
  lemma OldRowsNeedTheCursor(session: SessionId, after: After, log: seq<EventRow>, steps: seq<Step>, i: nat)
    requires ValidSession(Start(session, after, log, {})) && i < |log|
    ensures var end := Exec(Start(session, after, log, {}), steps);
      end.phase.Delivered? ==> (log[i] in end.output.rows <==> PassesCursor(session, after)(log[i]))
  {
    var st := Start(session, after, log, {});
    StartIsValid(session, after, log, {});
    StitchHolds(st, steps);
    CursorIsKept(st, steps);
    OldRowsStayOld(st, steps);
    var end := Exec(st, steps);
    assert end.log[..|log|][i] == end.log[i];
    RowIsSent(end, i);
    assert log[i].seqNo == i + 1;
    if end.phase.Delivered? {
      OldRowsFetched(st, steps);
    }
    hide Exec, SentIsDue, RowsFromLog, SentOnce;
  }

  lemma {:induction false} OldRowsFetched(st: Stitch, steps: seq<Step>)
    requires StitchInvariant(st) && st.unpublished == {} && st.live == {} && st.phase.Idle?
    ensures var end := Exec(st, steps); end.phase.Fetched? || end.phase.Delivered? ==> |st.log| <= end.fetched
  {
    hide Replay, Sent, SentAll, StitchInvariant;
    if steps != [] {
      OldRowsFetched(st, steps[..|steps| - 1]);
      OldRowsStayOld(st, steps[..|steps| - 1]);
    }
  }

  // ---- order ----

  predicate InWindow(st: Stitch) { st.phase.Asked? || st.phase.Fetched? }

  /** The cursor does not skip the row of this number. */
  predicate AfterCursor(after: After, seqNo: int) {
    after.Seq? ==> seqNo > after.value
  }

  /** No event is published between the subscription and the delivery of the replay, and otherwise
      they are published in order; rows not yet published at the subscription or inserted before the
      delivery are beyond the cursor. */
  ghost predicate Calm(st: Stitch, step: Step) {
    match step
    case Insert(row) => InWindow(st) ==> AfterCursor(st.after, row.seqNo)
    case Publish(i) => !InWindow(st) && forall j :: j in st.unpublished ==> i <= j
    case Subscribe => st.phase.Idle? ==> forall j :: j in st.unpublished ==> AfterCursor(st.after, j + 1)
    case _ => true
  }

  ghost predicate CalmRun(st: Stitch, steps: seq<Step>) {
    forall n :: 0 <= n < |steps| ==> Calm(Exec(st, steps[..n]), steps[n])
  }

  ghost predicate Increasing(rows: seq<EventRow>) {
    forall j, k :: 0 <= j < k < |rows| ==> rows[j].seqNo < rows[k].seqNo
  }

  ghost predicate OrderInvariant(st: Stitch) {
    && Increasing(st.output.rows)
    && (!st.phase.Delivered? ==> st.output == NOTHING_SENT)
    && (InWindow(st) ==> forall u :: u in st.unpublished ==> AfterCursor(st.after, u + 1))
    && PendingAhead(st)
  }

  /** A row still to be published is beyond every row sent, unless the replay has sent it. */
  ghost predicate PendingAhead(st: Stitch) {
    forall k, u :: 0 <= k < |st.output.rows| && u in st.unpublished && u < |st.log| ==>
      st.output.rows[k].seqNo < u + 1 || st.log[u].id in st.output.sent
  }

  lemma SentAllSnoc(output: Output, rows: seq<EventRow>, row: EventRow)
    ensures SentAll(output, rows + [row]) == Sent(SentAll(output, rows), row)
  {
    assert (rows + [row])[..|rows + [row]| - 1] == rows;
  }

  ghost predicate UniqueIds(rows: seq<EventRow>) {
    forall i, j :: 0 <= i < j < |rows| ==> rows[i].id != rows[j].id
  }

  lemma UniqueIdsSnoc(rows: seq<EventRow>)
    requires UniqueIds(rows) && rows != []
    ensures UniqueIds(rows[..|rows| - 1]) && !HasId(rows[..|rows| - 1], rows[|rows| - 1].id)
  {}

  lemma {:induction false} SentAllFresh(rows: seq<EventRow>)
    requires UniqueIds(rows)
    ensures SentAll(NOTHING_SENT, rows).rows == rows
  {
    if rows != [] {
      var front, last := rows[..|rows| - 1], rows[|rows| - 1];
      assert front + [last] == rows;
      UniqueIdsSnoc(rows);
      SentAllSnoc(NOTHING_SENT, front, last);
      hide UniqueIds, HasId, SentAll;
      SentAllFresh(front);
      SendAllIds(NOTHING_SENT, front, last.id);
    }
  }

  lemma SliceOfLog(st: Stitch, low: nat, high: nat)
    requires ValidSession(st) && low <= high <= |st.log|
    ensures UniqueIds(st.log[low..high]) && Increasing(st.log[low..high])
  {
    var rows := st.log[low..high];
    assert forall k :: 0 <= k < |rows| ==> rows[k] == st.log[low + k];
  }

  lemma DeliveredRows(st: Stitch)
    requires StitchInvariant(st) && OrderInvariant(st) && st.phase.Fetched?
    ensures var after := Next(st, Deliver);
      && after.output.rows == st.log[Skipped(st.after, st.fetched)..st.fetched]
      && Increasing(after.output.rows)
  {
    SliceOfLog(st, Skipped(st.after, st.fetched), st.fetched);
    SentAllFresh(st.phase.rows);
    hide SentAll, SentOnce, SentIsDue, RowsFromLog, UniqueIds, Increasing, ValidSession, PendingAhead;
  }

  lemma DeliveredPending(st: Stitch)
    requires StitchInvariant(st) && OrderInvariant(st) && st.phase.Fetched?
    ensures PendingAhead(Next(st, Deliver))
  {
    var after := Next(st, Deliver);
    var low := Skipped(st.after, st.fetched);
    DeliverSendsDue(st);
    DeliveredRows(st);
    hide SentAll, SentOnce, RowsFromLog, Increasing, PendingAhead;
    forall u | u in st.unpublished && u < |st.log|
      ensures forall k :: 0 <= k < |after.output.rows| ==>
                after.output.rows[k].seqNo < u + 1 || st.log[u].id in after.output.sent
    {
      assert st.log[u].id in after.output.sent <==> Due(after, u);
      if u < st.fetched && after.output.rows != [] {
        assert low <= u;
      }
    }
    assert PendingAhead(after) by {
      PendingAheadIs(after);
    }
  }

  lemma PendingAheadIs(st: Stitch)
    requires forall u :: u in st.unpublished && u < |st.log| ==>
      forall k :: 0 <= k < |st.output.rows| ==> st.output.rows[k].seqNo < u + 1 || st.log[u].id in st.output.sent
    ensures PendingAhead(st)
  {}

  lemma DeliverKeepsOrder(st: Stitch)
    requires StitchInvariant(st) && OrderInvariant(st)
    ensures OrderInvariant(Next(st, Deliver))
  {
    if st.phase.Fetched? {
      DeliveredRows(st);
      DeliveredPending(st);
      hide SentAll, SentOnce, SentIsDue, RowsFromLog, Increasing, ValidSession, PendingAhead;
    }
  }

  lemma PublishKeepsOrder(st: Stitch, i: nat)
    requires StitchInvariant(st) && OrderInvariant(st) && Calm(st, Publish(i))
    requires !st.phase.Idle?
    ensures OrderInvariant(Next(st, Publish(i)))
  {
    hide SentOnce, SentIsDue, RowsFromLog, Bookkeeping;
  }

  lemma InsertKeepsOrder(st: Stitch, row: EventRow)
    requires StitchInvariant(st) && OrderInvariant(st) && Calm(st, Insert(row))
    ensures OrderInvariant(Next(st, Insert(row)))
  {
    RowsPrecedeNext(st);
    hide SentOnce, SentIsDue, RowsFromLog, Bookkeeping, Increasing;
  }

  lemma CalmStepKeepsOrder(st: Stitch, step: Step)
    requires StitchInvariant(st) && OrderInvariant(st) && Calm(st, step)
    ensures OrderInvariant(Next(st, step))
  {
    match step
    case Deliver => DeliverKeepsOrder(st);
    case Insert(row) => InsertKeepsOrder(st, row);
    case Publish(i) => if !st.phase.Idle? { PublishKeepsOrder(st, i); }
    case _ => hide Replay, Increasing;
  }

  lemma RowsPrecedeNext(st: Stitch)
    requires StitchInvariant(st)
    ensures forall k :: 0 <= k < |st.output.rows| ==> st.output.rows[k].seqNo <= |st.log|
  {
    hide SentOnce, SentIsDue, Bookkeeping;
  }

  /** With no live event inside the window the rows go out in the order of their numbers. */
  lemma SentInOrder(session: SessionId, after: After, log: seq<EventRow>, unpublished: set<nat>, steps: seq<Step>)
    requires ValidSession(Start(session, after, log, unpublished))
    requires CalmRun(Start(session, after, log, unpublished), steps)
    ensures Increasing(Exec(Start(session, after, log, unpublished), steps).output.rows)
  {
    hide Exec, Increasing;
    CalmRunKeepsOrder(session, after, log, unpublished, steps);
  }

  lemma {:induction false} CalmRunKeepsOrder(session: SessionId, after: After, log: seq<EventRow>, unpublished: set<nat>,
                                       steps: seq<Step>)
    requires ValidSession(Start(session, after, log, unpublished))
    requires CalmRun(Start(session, after, log, unpublished), steps)
    ensures OrderInvariant(Exec(Start(session, after, log, unpublished), steps))
  {
    var st := Start(session, after, log, unpublished);
    if steps != [] {
      var n := |steps| - 1;
      assert forall m :: 0 <= m < n ==> steps[..n][..m] == steps[..m];
      assert Calm(Exec(st, steps[..n]), steps[n]);
      hide Calm, StitchInvariant, OrderInvariant, Next;
      CalmRunKeepsOrder(session, after, log, unpublished, steps[..n]);
      StartIsValid(session, after, log, unpublished);
      StitchHolds(st, steps[..n]);
      CalmStepKeepsOrder(Exec(st, steps[..n]), steps[n]);
    }
  }

  lemma ExecSnoc(st: Stitch, steps: seq<Step>, step: Step)
    ensures Exec(st, steps + [step]) == Next(Exec(st, steps), step)
  {
    assert (steps + [step])[..|steps + [step]| - 1] == steps;
  }

  lemma ExecFive(st: Stitch, a: Step, b: Step, c: Step, d: Step, e: Step)
    ensures Exec(st, [a, b, c, d, e]) == Next(Next(Next(Next(Next(st, a), b), c), d), e)
  {
    ExecSnoc(st, [], a);
    hide *;
    ExecSnoc(st, [a], b);
    ExecSnoc(st, [a, b], c);
    ExecSnoc(st, [a, b, c], d);
    ExecSnoc(st, [a, b, c, d], e);
    assert Exec(st, []) == st by { ExecNothing(st); }
    assert [] + [a] == [a] && [a] + [b] == [a, b] && [a, b] + [c] == [a, b, c];
    assert [a, b, c] + [d] == [a, b, c, d] && [a, b, c, d] + [e] == [a, b, c, d, e];
  }

  lemma ExecNothing(st: Stitch)
    ensures Exec(st, []) == st
  {}
}
