/** The durable per-session event log and its live subscribers. */
module EventJournal {
  import opened Prelude
  import opened Sequences
  import opened HashString
  import opened Records

  datatype NewEvent = NewEvent(sessionId: SessionId, tenantId: string, turnId: TurnId, worker: WorkerId,
                               leaseEpoch: int, sourceId: JsString, kind: string, data: EventData)

  /** The `after` cursor: absent, a number, or text that is not a number. */
  datatype After = Absent | Seq(value: int) | NotANumber

  function OfSession(s: SessionId): EventRow -> bool { (e: EventRow) => e.sessionId == s }
  function SeqNo(e: EventRow): int { e.seqNo }

  /** The rows of one session in insertion order. */
  function SessionLog(events: seq<EventRow>, s: SessionId): seq<EventRow> {
    Filter(events, OfSession(s))
  }

  predicate Known(events: seq<EventRow>, s: SessionId, sourceId: JsString) {
    exists i :: 0 <= i < |events| && events[i].sessionId == s && events[i].sourceId == sourceId
  }

  predicate IdUsed(events: seq<EventRow>, id: string) {
    exists i :: 0 <= i < |events| && events[i].id == id
  }

  /** The largest sequence number of the session, or 0. */
  function LatestSeq(events: seq<EventRow>, s: SessionId): int {
    if events == [] then 0 else
    var front, last := LatestSeq(events[..|events| - 1], s), events[|events| - 1];
    if last.sessionId == s && front < last.seqNo then last.seqNo else front
  }

  function RowFor(input: NewEvent, id: string, seqNo: int, now: int): EventRow {
    EventRow(id, input.sessionId, input.tenantId, input.turnId, input.worker, input.leaseEpoch, seqNo,
             input.sourceId, input.kind, input.data, now)
  }

  function Appended(events: seq<EventRow>, input: NewEvent, id: string, now: int): Result<seq<EventRow>, ServiceError> {
    if Known(events, input.sessionId, input.sourceId) then Ok(events)
    else if IdUsed(events, id) then Err(DuplicateId)
    else Ok(events + [RowFor(input, id, LatestSeq(events, input.sessionId) + 1, now)])
  }

  function PassesCursor(s: SessionId, after: After): EventRow -> bool {
    (e: EventRow) => e.sessionId == s && (after.Absent? || (after.Seq? && e.seqNo > after.value))
  }

  /** The cursor a finite number stands for. */
  function CursorOf(number: real): After { Seq(number.Floor) }

  /** Sequence numbers are beyond a number exactly when they are beyond its integer part. */
  lemma FractionalCursor(s: SessionId, number: real, e: EventRow)
    ensures PassesCursor(s, CursorOf(number))(e) <==> e.sessionId == s && e.seqNo as real > number
  {
    if e.seqNo > number.Floor {
      assert e.seqNo as real >= (number.Floor + 1) as real;
    } else {
      assert e.seqNo as real <= number.Floor as real;
    }
  }

  function Replay(events: seq<EventRow>, s: SessionId, after: After): seq<EventRow> {
    StableSort(Filter(events, PassesCursor(s, after)), SeqNo)
  }

  // ---- the log invariant ----

  ghost predicate Numbered(events: seq<EventRow>, s: SessionId) {
    forall i :: 0 <= i < |SessionLog(events, s)| ==> SessionLog(events, s)[i].seqNo == i + 1
  }

  ghost predicate UniqueRows(events: seq<EventRow>) {
    && (forall i, j :: 0 <= i < j < |events| ==> events[i].id != events[j].id)
    && (forall i, j :: 0 <= i < j < |events| && events[i].sessionId == events[j].sessionId
          ==> events[i].sourceId != events[j].sourceId)
  }

  /** Sequence numbers of every session are 1, 2, 3, ... and no source is stored twice. */
  ghost predicate ValidLog(events: seq<EventRow>) {
    UniqueRows(events) && forall s :: Numbered(events, s)
  }

  lemma {:induction false} LatestIsLength(events: seq<EventRow>, s: SessionId)
    requires Numbered(events, s)
    ensures LatestSeq(events, s) == |SessionLog(events, s)|
  {
    if events != [] {
      var front, last := events[..|events| - 1], events[|events| - 1];
      var log, before := SessionLog(events, s), SessionLog(front, s);
      FilterSnoc(front, last, OfSession(s));
      assert events == front + [last];
      assert forall i :: 0 <= i < |before| ==> before[i] == log[i];
      LatestIsLength(front, s);
      if last.sessionId == s {
        assert log[|before|] == last;
      }
    }
  }

  lemma EmptyLogIsValid()
    ensures ValidLog([])
  {}

  /** Appending a fresh source adds exactly the next number to its session and leaves the others alone. */
  lemma AppendKeepsLog(events: seq<EventRow>, input: NewEvent, id: string, now: int)
    requires ValidLog(events) && Appended(events, input, id, now).Ok?
    ensures var after := Appended(events, input, id, now).value;
      && ValidLog(after) && events <= after
      && (forall s :: s != input.sessionId ==> SessionLog(after, s) == SessionLog(events, s))
      && Known(after, input.sessionId, input.sourceId)
      && (Known(events, input.sessionId, input.sourceId) ==> after == events)
      && (!Known(events, input.sessionId, input.sourceId) ==>
            SessionLog(after, input.sessionId) == SessionLog(events, input.sessionId)
              + [RowFor(input, id, |SessionLog(events, input.sessionId)| + 1, now)])
  {
    if !Known(events, input.sessionId, input.sourceId) {
      var after := Appended(events, input, id, now).value;
      var row := after[|events|];
      LatestIsLength(events, input.sessionId);
      assert after == events + [row];
      forall s ensures Numbered(after, s) && (s != input.sessionId ==> SessionLog(after, s) == SessionLog(events, s)) {
        NumberingGrows(events, row, s);
      }
      NumberingGrows(events, row, input.sessionId);
    }
  }

  lemma NumberingGrows(events: seq<EventRow>, row: EventRow, s: SessionId)
    requires Numbered(events, s)
    requires row.sessionId == s ==> row.seqNo == |SessionLog(events, s)| + 1
    ensures Numbered(events + [row], s)
    ensures SessionLog(events + [row], s)
         == if row.sessionId == s then SessionLog(events, s) + [row] else SessionLog(events, s)
  {
    hide Filter;
    FilterSnoc(events, row, OfSession(s));
    var log, after := SessionLog(events, s), SessionLog(events + [row], s);
    assert OfSession(s)(row) <==> row.sessionId == s;
    assert forall i :: 0 <= i < |log| ==> after[i] == log[i];
  }

  /** `append` of a known source returns the stored row. */
  lemma KnownSourceIsUnique(events: seq<EventRow>, i: nat, j: nat)
    requires ValidLog(events) && i < |events| && j < |events|
    requires events[i].sessionId == events[j].sessionId && events[i].sourceId == events[j].sourceId
    ensures i == j
  {}

  lemma LaterThan(log: seq<EventRow>, s: SessionId, k: int)
    requires forall i :: 0 <= i < |log| ==> log[i].seqNo == i + 1 && log[i].sessionId == s
    ensures Filter(log, PassesCursor(s, Seq(k)))
         == if k <= 0 then log else if |log| <= k then [] else log[k..]
  {
    hide Filter;
    var cut := if k <= 0 then 0 else if |log| <= k then |log| else k;
    SplitAt(log, cut);
    FilterAppend(log[..cut], log[cut..], PassesCursor(s, Seq(k)));
    FilterNone(log[..cut], PassesCursor(s, Seq(k)));
    FilterAll(log[cut..], PassesCursor(s, Seq(k)));
  }

  /** Replaying after `k` drops the first k entries of the session's log; a cursor that is not
      a number drops them all. */
  lemma ReplayMeaning(events: seq<EventRow>, s: SessionId, after: After)
    requires Numbered(events, s)
    ensures var log := SessionLog(events, s);
      Replay(events, s, after) == match after
        case Absent => log
        case NotANumber => []
        case Seq(k) => if k <= 0 then log else if |log| <= k then [] else log[k..]
  {
    hide StableSort;
    var log := SessionLog(events, s);
    var kept := Filter(events, PassesCursor(s, after));
    forall i | 0 <= i < |log| ensures log[i].sessionId == s {
      FilterMember(events, OfSession(s), log[i]);
    }
    CursorOnLog(events, s, after);
    match after {
      case Absent =>
        FilterAll(log, PassesCursor(s, after));
      case NotANumber =>
        FilterNone(log, PassesCursor(s, after));
      case Seq(k) =>
        LaterThan(log, s, k);
    }
    assert Sorted(kept, SeqNo);
    SortOfSorted(kept);
  }

  lemma {:induction false} CursorOnLog(events: seq<EventRow>, s: SessionId, after: After)
    ensures Filter(events, PassesCursor(s, after)) == Filter(SessionLog(events, s), PassesCursor(s, after))
  {
    if events != [] {
      var front, last := events[..|events| - 1], events[|events| - 1];
      CursorOnLog(front, s, after);
      FilterSnoc(SessionLog(front, s), last, PassesCursor(s, after));
    }
  }

  lemma SortOfSorted(rows: seq<EventRow>)
    requires Sorted(rows, SeqNo)
    ensures StableSort(rows, SeqNo) == rows
  {
    SortOrders(rows, SeqNo);
    forall v ensures Filter(StableSort(rows, SeqNo), KeyIs(SeqNo, v)) == Filter(rows, KeyIs(SeqNo, v)) {
      SortIsStable(rows, SeqNo, v);
    }
    StableSortIsUnique(StableSort(rows, SeqNo), rows, SeqNo);
  }
}
