/** Exactly when the rows of one response go out in increasing order: for one step, over every run,
    and for the replay that is read at once and delivered later. */
module SseOrder {
  import opened Prelude
  import opened Sequences
  import opened Records
  import opened EventJournal
  import opened EventStream
  import opened SseStitch

  // ---- increasing lists ----

  lemma IncreasingConcat(xs: seq<EventRow>, ys: seq<EventRow>)
    ensures Increasing(xs + ys) <==>
      && Increasing(xs) && Increasing(ys)
      && forall i, j :: 0 <= i < |xs| && 0 <= j < |ys| ==> xs[i].seqNo < ys[j].seqNo
  {
    var zs := xs + ys;
    assert forall i :: 0 <= i < |xs| ==> zs[i] == xs[i];
    assert forall j :: 0 <= j < |ys| ==> zs[|xs| + j] == ys[j];
    if Increasing(zs) {
      forall i, j | 0 <= i < |xs| && 0 <= j < |ys| ensures xs[i].seqNo < ys[j].seqNo {
        assert zs[i].seqNo < zs[|xs| + j].seqNo;
      }
      forall j, k | 0 <= j < k < |ys| ensures ys[j].seqNo < ys[k].seqNo {
        assert zs[|xs| + j].seqNo < zs[|xs| + k].seqNo;
      }
    }
  }

  lemma AppendOne(rows: seq<EventRow>, row: EventRow)
    ensures Increasing(rows + [row]) <==>
      Increasing(rows) && forall k :: 0 <= k < |rows| ==> rows[k].seqNo < row.seqNo
  {
    IncreasingConcat(rows, [row]);
    assert Increasing([row]) && [row][0] == row;
    hide Increasing;
  }

  lemma {:induction false} FilterIncreasing(rows: seq<EventRow>, p: EventRow -> bool)
    requires Increasing(rows)
    ensures Increasing(Filter(rows, p))
  {
    if rows != [] {
      var front, last := rows[..|rows| - 1], rows[|rows| - 1];
      FilterIncreasing(front, p);
      FilterSnoc(front, last, p);
      assert rows == front + [last];
      IncreasingConcat(Filter(front, p), [last]);
      forall i | 0 <= i < |Filter(front, p)| ensures Filter(front, p)[i].seqNo < last.seqNo {
        FilterMember(front, p, Filter(front, p)[i]);
      }
      hide Filter;
    }
  }

  // ---- what sending adds ----

  function Unsent(output: Output): EventRow -> bool {
    (row: EventRow) => row.id !in output.sent
  }

  /** `events.forEach(send)` appends the rows that were not sent before. */
  lemma {:induction false} SendAllAppends(output: Output, rows: seq<EventRow>)
    requires UniqueIds(rows)
    ensures SentAll(output, rows).rows == output.rows + Filter(rows, Unsent(output))
  {
    if rows != [] {
      var front, last := rows[..|rows| - 1], rows[|rows| - 1];
      assert front + [last] == rows;
      UniqueIdsSnoc(rows);
      SentAllSnoc(output, front, last);
      SendAllIds(output, front, last.id);
      FilterSnoc(front, last, Unsent(output));
      hide UniqueIds, HasId, SentAll, Filter;
      SendAllAppends(output, front);
    }
  }

  /** The index of a row sent. */
  lemma RowIndex(st: Stitch, k: nat) returns (i: nat)
    requires StitchInvariant(st) && k < |st.output.rows|
    ensures i < |st.log| && st.log[i] == st.output.rows[k] && st.log[i].seqNo == i + 1 && Due(st, i)
  {
    assert st.output.rows[k] in st.log;
    i :| 0 <= i < |st.log| && st.log[i] == st.output.rows[k];
    RowIsSent(st, i);
  }

  // ---- one step ----

  /** Every row sent has a number up to `i`; every row due an index below `i`. */
  ghost predicate RowsBelow(st: Stitch, i: nat) {
    forall k :: 0 <= k < |st.output.rows| ==> st.output.rows[k].seqNo < i + 1
  }

  ghost predicate DueBelow(st: Stitch, i: nat) {
    forall k :: 0 <= k < |st.log| && Due(st, k) ==> k < i
  }

  /** A live row must be beyond every row sent, or sent already; and when the replay is delivered, no
      row of it may be older than a row sent live unless it was sent live itself. */
  ghost predicate Orderly(st: Stitch, step: Step) {
    match step
    case Publish(i) =>
      i in st.unpublished && i < |st.log| && Subscribed(st) && !Due(st, i) ==>
        DueBelow(st, i)
    case Deliver => st.phase.Fetched? ==> ReplayIsAhead(st)
    case _ => true
  }

  ghost predicate ReplayIsAhead(st: Stitch) {
    forall i, j :: i in st.live && Skipped(st.after, st.fetched) <= j < st.fetched && j < i ==> j in st.live
  }

  lemma PublishOrderlyIff(st: Stitch, i: nat)
    requires StitchInvariant(st) && i in st.unpublished && i < |st.log| && Subscribed(st)
    ensures Increasing(Next(st, Publish(i)).output.rows)
       <==> Increasing(st.output.rows) && Orderly(st, Publish(i))
  {
    var row := st.log[i];
    assert row.seqNo == i + 1 && (row.id in st.output.sent <==> Due(st, i));
    hide SentOnce, SentIsDue, Bookkeeping, RowsFromLog, Increasing, Due, ValidSession, DueBelow;
    if !Due(st, i) {
      SentBelowIff(st, i);
      AppendOne(st.output.rows, row);
    }
  }

  lemma SentBelowIff(st: Stitch, i: nat)
    requires StitchInvariant(st) && i < |st.log|
    ensures RowsBelow(st, i) <==> DueBelow(st, i)
  {
    hide SentOnce, SentIsDue, Bookkeeping, RowsFromLog, Due;
    if DueBelow(st, i) {
      forall k | 0 <= k < |st.output.rows| ensures st.output.rows[k].seqNo < i + 1 {
        var m := RowIndex(st, k);
      }
      assert RowsBelow(st, i);
    }
    if RowsBelow(st, i) {
      forall k | 0 <= k < |st.log| && Due(st, k) ensures k < i {
        RowIsSent(st, k);
        var n :| 0 <= n < |st.output.rows| && st.output.rows[n] == st.log[k];
        assert st.output.rows[n].seqNo < i + 1 && st.log[k].seqNo == k + 1;
      }
      assert DueBelow(st, i);
    }
  }

  /** The rows the delivery adds. */
  function Added(st: Stitch): seq<EventRow>
    requires st.phase.Fetched?
  {
    Filter(st.phase.rows, Unsent(st.output))
  }

  lemma AddedRow(st: Stitch, j: nat)
    requires StitchInvariant(st) && st.phase.Fetched? && j < |st.log|
    ensures st.log[j] in Added(st) <==> Skipped(st.after, st.fetched) <= j < st.fetched && j !in st.live
  {
    FilterMember(st.phase.rows, Unsent(st.output), st.log[j]);
    var low := Skipped(st.after, st.fetched);
    if low <= j < st.fetched {
      assert st.phase.rows[j - low] == st.log[j];
    }
    if k :| 0 <= k < |st.phase.rows| && st.phase.rows[k] == st.log[j] {
      assert st.log[low + k] == st.log[j];
    }
    hide Filter, SentOnce, RowsFromLog;
  }

  lemma AddedIndex(st: Stitch, k: nat) returns (j: nat)
    requires StitchInvariant(st) && st.phase.Fetched? && k < |Added(st)|
    ensures j < |st.log| && st.log[j] == Added(st)[k] && st.log[j].seqNo == j + 1
  {
    FilterMember(st.phase.rows, Unsent(st.output), Added(st)[k]);
    hide Filter, SentOnce, RowsFromLog, SentIsDue;
    var n :| 0 <= n < |st.phase.rows| && st.phase.rows[n] == Added(st)[k];
    j := Skipped(st.after, st.fetched) + n;
  }

  lemma AddedIsAheadIff(st: Stitch)
    requires StitchInvariant(st) && st.phase.Fetched?
    ensures (forall m, n :: 0 <= m < |st.output.rows| && 0 <= n < |Added(st)| ==>
               st.output.rows[m].seqNo < Added(st)[n].seqNo)
       <==> ReplayIsAhead(st)
  {
    hide SentOnce, SentIsDue, RowsFromLog, Added, ValidSession;
    if ReplayIsAhead(st) {
      forall m, n | 0 <= m < |st.output.rows| && 0 <= n < |Added(st)|
        ensures st.output.rows[m].seqNo < Added(st)[n].seqNo
      {
        var i := RowIndex(st, m);
        var j := AddedIndex(st, n);
        AddedRow(st, j);
        assert i in st.live && j !in st.live;
      }
    }
    if forall m, n :: 0 <= m < |st.output.rows| && 0 <= n < |Added(st)| ==>
         st.output.rows[m].seqNo < Added(st)[n].seqNo {
      forall i, j | i in st.live && Skipped(st.after, st.fetched) <= j < st.fetched && j < i ensures j in st.live {
        if j !in st.live {
          AddedRow(st, j);
          RowIsSent(st, i);
          OlderAddedIsBehind(st, i, j);
        }
      }
    }
  }

  lemma OlderAddedIsBehind(st: Stitch, i: nat, j: nat)
    requires StitchInvariant(st) && st.phase.Fetched? && j < i < |st.log|
    requires st.log[i] in st.output.rows && st.log[j] in Added(st)
    ensures exists m, n :: 0 <= m < |st.output.rows| && 0 <= n < |Added(st)|
              && st.output.rows[m].seqNo >= Added(st)[n].seqNo
  {
    hide Added, SentOnce, SentIsDue, RowsFromLog, Bookkeeping;
    var m :| 0 <= m < |st.output.rows| && st.output.rows[m] == st.log[i];
    var n :| 0 <= n < |Added(st)| && Added(st)[n] == st.log[j];
    assert st.log[i].seqNo == i + 1 && st.log[j].seqNo == j + 1;
    assert st.output.rows[m].seqNo >= Added(st)[n].seqNo;
  }

  /** Delivering the replay keeps the order if and only if nothing newer overtook it. */
  lemma DeliverOrderlyIff(st: Stitch)
    requires StitchInvariant(st) && st.phase.Fetched?
    ensures Increasing(Next(st, Deliver).output.rows) <==> Increasing(st.output.rows) && ReplayIsAhead(st)
  {
    SliceOfLog(st, Skipped(st.after, st.fetched), st.fetched);
    SendAllAppends(st.output, st.phase.rows);
    FilterIncreasing(st.phase.rows, Unsent(st.output));
    IncreasingConcat(st.output.rows, Added(st));
    AddedIsAheadIff(st);
    hide SentAll, SentOnce, SentIsDue, RowsFromLog, Increasing, UniqueIds, ReplayIsAhead, Filter, ValidSession;
  }

  lemma StepOrderlyIff(st: Stitch, step: Step)
    requires StitchInvariant(st)
    ensures Increasing(Next(st, step).output.rows) <==> Increasing(st.output.rows) && Orderly(st, step)
  {
    match step
    case Deliver =>
      if st.phase.Fetched? { DeliverOrderlyIff(st); }
      hide StitchInvariant, Increasing, ReplayIsAhead, SentAll;
    case Publish(i) =>
      if i in st.unpublished && i < |st.log| && Subscribed(st) { PublishOrderlyIff(st, i); }
      hide StitchInvariant, Increasing, Due;
    case _ =>
      hide StitchInvariant, Increasing, Replay;
  }

  // ---- runs ----

  ghost predicate OrderlyRun(st: Stitch, steps: seq<Step>) {
    forall n :: 0 <= n < |steps| ==> Orderly(Exec(st, steps[..n]), steps[n])
  }

  lemma OrderlySnoc(st: Stitch, steps: seq<Step>)
    requires steps != []
    ensures var front := steps[..|steps| - 1];
      OrderlyRun(st, steps) <==> OrderlyRun(st, front) && Orderly(Exec(st, front), steps[|steps| - 1])
  {
    hide Exec, Orderly;
    var front := steps[..|steps| - 1];
    assert forall n :: 0 <= n < |front| ==> front[n] == steps[n] && front[..n] == steps[..n];
  }

  /** Over every run, of any interleaving, rows go out in increasing order if and only if every step
      is orderly when it is taken. */
  lemma {:induction false} SentInOrderIff(session: SessionId, after: After, log: seq<EventRow>, unpublished: set<nat>,
                                          steps: seq<Step>)
    requires ValidSession(Start(session, after, log, unpublished))
    ensures var st := Start(session, after, log, unpublished);
      Increasing(Exec(st, steps).output.rows) <==> OrderlyRun(st, steps)
  {
    var st := Start(session, after, log, unpublished);
    if steps != [] {
      var front := steps[..|steps| - 1];
      hide OrderlyRun, Increasing, Next, StitchInvariant, Orderly;
      SentInOrderIff(session, after, log, unpublished, front);
      OrderlySnoc(st, steps);
      StartIsValid(session, after, log, unpublished);
      StitchHolds(st, front);
      StepOrderlyIff(Exec(st, front), steps[|steps| - 1]);
    }
  }

  // ---- the replay that is read together with the subscription ----

  /** When only rows inserted after the read were sent live, the replay goes out in order if and only
      if it is empty or none was sent: any row beyond the cursor is overtaken by any live one. */
  lemma LiveRowsOvertakeIff(st: Stitch)
    requires StitchInvariant(st) && st.phase.Fetched? && Increasing(st.output.rows)
    requires forall i :: i in st.live ==> i >= st.fetched
    ensures Increasing(Next(st, Deliver).output.rows)
       <==> st.live == {} || Skipped(st.after, st.fetched) == st.fetched
  {
    DeliverOrderlyIff(st);
    hide Next, SentOnce, SentIsDue, RowsFromLog, Increasing, ValidSession;
    if i :| i in st.live && Skipped(st.after, st.fetched) < st.fetched {
      var j := Skipped(st.after, st.fetched);
      assert j < i && j !in st.live;
    }
  }

  predicate WindowStep(step: Step) { step.Insert? || step.Publish? }

  ghost predicate WindowOnly(steps: seq<Step>) {
    forall n :: 0 <= n < |steps| ==> WindowStep(steps[n])
  }

  /** The state after subscribing and reading in one go. */
  function Opened(session: SessionId, after: After, log: seq<EventRow>, unpublished: set<nat>): Stitch {
    Next(Next(Start(session, after, log, unpublished), Subscribe), Fetch)
  }

  lemma {:induction false} WindowKeepsRead(st: Stitch, window: seq<Step>)
    requires st.phase.Fetched? && WindowOnly(window)
    ensures var mid := Exec(st, window);
      mid.phase == st.phase && mid.fetched == st.fetched && mid.after == st.after
  {
    hide Sent;
    if window != [] {
      WindowKeepsRead(st, window[..|window| - 1]);
    }
  }

  /** Of the rows stored before the read, only those pending at it are sent live. */
  lemma {:induction false} LiveWerePending(st: Stitch, window: seq<Step>, i: nat)
    requires StitchInvariant(st) && WindowOnly(window) && st.live == {}
    requires i < |st.log| && i !in st.unpublished
    ensures var mid := Exec(st, window);
      i !in mid.live && i !in mid.unpublished && |st.log| <= |mid.log|
  {
    hide Sent, StitchInvariant;
    if window != [] {
      LiveWerePending(st, window[..|window| - 1], i);
    }
  }

  lemma OpenedIsSound(session: SessionId, after: After, log: seq<EventRow>, unpublished: set<nat>)
    requires ValidSession(Start(session, after, log, unpublished))
    ensures var st := Opened(session, after, log, unpublished);
      && StitchInvariant(st) && st.phase.Fetched? && st.fetched == |log| && st.after == after
      && st.live == {} && st.log == log && st.unpublished == unpublished
  {
    var start := Start(session, after, log, unpublished);
    StartIsValid(session, after, log, unpublished);
    hide StitchInvariant, Replay;
    StepKeepsStitch(start, Subscribe);
    StepKeepsStitch(Next(start, Subscribe), Fetch);
  }

  /** The subscription and the read in one go, then any inserts and publications, then the delivery, over
      any log and with any of its rows still pending: the rows go out in order if and only if those sent
      live did and every replayed row older than one of them was itself sent live. With nothing pending at
      the read: if and only if none was sent live or the replay is empty. */
  lemma ReadWithSubscriptionIff(session: SessionId, after: After, log: seq<EventRow>, unpublished: set<nat>,
                                window: seq<Step>)
    requires ValidSession(Start(session, after, log, unpublished)) && WindowOnly(window)
    ensures
      var mid := Exec(Opened(session, after, log, unpublished), window);
      var end := Next(mid, Deliver);
      var low := Skipped(after, |log|);
      && (Increasing(end.output.rows) <==>
            Increasing(mid.output.rows)
            && forall i, j :: i in mid.live && low <= j < |log| && j < i ==> j in mid.live)
      && (unpublished == {} ==>
            (Increasing(end.output.rows) <==> Increasing(mid.output.rows) && (mid.live == {} || low == |log|)))
  {
    var st := Opened(session, after, log, unpublished);
    OpenedIsSound(session, after, log, unpublished);
    WindowKeepsRead(st, window);
    StitchHolds(st, window);
    var mid := Exec(st, window);
    DeliverOrderlyIff(mid);
    if unpublished == {} {
      forall i | i in mid.live ensures i >= |log| {
        if i < |log| { LiveWerePending(st, window, i); }
      }
      hide *;
      LiveRowsOvertakeHere(mid);
    }
    hide Exec, Opened, Next, StitchInvariant, Increasing;
  }

  lemma LiveRowsOvertakeHere(mid: Stitch)
    requires StitchInvariant(mid) && mid.phase.Fetched?
    requires forall i :: i in mid.live ==> i >= mid.fetched
    ensures Increasing(Next(mid, Deliver).output.rows)
       <==> Increasing(mid.output.rows) && (mid.live == {} || Skipped(mid.after, mid.fetched) == mid.fetched)
  {
    DeliverOrderlyIff(mid);
    hide Next, StitchInvariant, ReplayIsAhead;
    if Increasing(mid.output.rows) {
      LiveRowsOvertakeIff(mid);
    }
  }

  /** The smallest such run: subscribe, read the replay, then one event comes in before the delivery. */
  lemma LiveRowOvertakes(session: SessionId, older: EventRow, newer: EventRow)
    requires ValidSession(Start(session, Absent, [older, newer], {}))
    ensures var steps := [Subscribe, Fetch, Insert(newer), Publish(1), Deliver];
      Exec(Start(session, Absent, [older], {}), steps).output.rows == [newer, older]
  {
    var start := Start(session, Absent, [older], {});
    assert [older, newer][0] == older && [older, newer][1] == newer && older.id != newer.id;
    var joined := Next(start, Subscribe);
    ReplayIsSuffix(joined);
    hide Replay, SentAll;
    var fetched := Next(joined, Fetch);
    assert fetched == joined.(phase := Fetched([older]), fetched := 1);
    var inserted := Next(fetched, Insert(newer));
    assert inserted == fetched.(log := [older, newer], unpublished := {1});
    var published := Next(inserted, Publish(1));
    assert published.phase == Fetched([older]) && published.output == Sent(NOTHING_SENT, newer);
    LateOlderRow(older, newer);
    var delivered := Next(published, Deliver);
    assert delivered.output.rows == [newer, older];
    hide *;
    ExecFive(start, Subscribe, Fetch, Insert(newer), Publish(1), Deliver);
  }

  lemma LateOlderRow(older: EventRow, newer: EventRow)
    requires older.id != newer.id
    ensures SentAll(Sent(NOTHING_SENT, newer), [older]).rows == [newer, older]
  {
    var output := Sent(NOTHING_SENT, newer);
    assert SentAll(output, []) == output;
    SentAllSnoc(output, [], older);
    assert [] + [older] == [older];
  }
}
