/** One SSE response: live events and the replayed ones, each sent once. */
module EventStream {
  import opened Prelude
  import opened Sequences
  import opened Records
  import opened EventJournal

  /** What a response has written: the rows in order, and the ids already sent. */
  datatype Output = Output(sent: set<string>, rows: seq<EventRow>)

  const NOTHING_SENT := Output({}, [])

  function Sent(output: Output, row: EventRow): Output {
    if row.id in output.sent then output else Output(output.sent + {row.id}, output.rows + [row])
  }

  function SentAll(output: Output, rows: seq<EventRow>): Output {
    if rows == [] then output else Sent(SentAll(output, rows[..|rows| - 1]), rows[|rows| - 1])
  }

  class SseStream {
    var output: Output

    constructor ()
      ensures output == NOTHING_SENT
    {
      output := NOTHING_SENT;
    }

    method Send(row: EventRow)
      modifies this
      ensures output == Sent(old(output), row)
      ensures output.sent == old(output.sent) + {row.id}
      ensures output.rows == if row.id in old(output.sent) then old(output.rows) else old(output.rows) + [row]
    {
      if row.id in output.sent {
        return;
      }
      output := Output(output.sent + {row.id}, output.rows + [row]);
    }

    /** `events.forEach(send)` */
    method SendAll(rows: seq<EventRow>)
      modifies this
      ensures output == SentAll(old(output), rows)
    {
      for i := 0 to |rows|
        invariant output == SentAll(old(output), rows[..i])
      {
        assert rows[..i + 1][..i] == rows[..i];
        Send(rows[i]);
      }
      assert rows[..|rows|] == rows;
    }
  }

  class Journal {
    const db: Database
    var subscribers: map<SessionId, set<SseStream>>

    constructor (db: Database)
      ensures this.db == db && subscribers == map[]
    {
      this.db := db;
      subscribers := map[];
    }

    ghost function Listeners(s: SessionId): set<SseStream>
      reads this
    {
      if s in subscribers then subscribers[s] else {}
    }

    /** Stores a new source and hands the row to every subscriber of its session; a known source
        changes nothing and returns its row. */
    method Append(input: NewEvent, id: string, now: int) returns (r: Result<EventRow, ServiceError>)
      modifies db`events, Listeners(input.sessionId)
      ensures var appended := Appended(old(db.events), input, id, now);
        match r
        case Err(e) => appended == Err(e) && db.events == old(db.events)
        case Ok(row) =>
          && appended == Ok(db.events) && row in db.events
          && row.sessionId == input.sessionId && row.sourceId == input.sourceId
      ensures r.Ok? ==>
        (db.events == old(db.events) <==>
           exists i :: 0 <= i < |old(db.events)| && old(db.events)[i].sessionId == input.sessionId
                       && old(db.events)[i].sourceId == input.sourceId)
      ensures r.Ok? && db.events != old(db.events) ==>
        && db.events == old(db.events) + [r.value]
        && r.value == EventRow(id, input.sessionId, input.tenantId, input.turnId, input.worker, input.leaseEpoch,
                               r.value.seqNo, input.sourceId, input.kind, input.data, now)
        && (forall i :: 0 <= i < |old(db.events)| && old(db.events)[i].sessionId == input.sessionId
              ==> old(db.events)[i].seqNo < r.value.seqNo)
      ensures forall l :: l in Listeners(input.sessionId) ==>
        l.output == if |db.events| == |old(db.events)| then old(l.output)
                    else Sent(old(l.output), db.events[|old(db.events)|])
    {
      if i :| 0 <= i < |db.events| && db.events[i].sessionId == input.sessionId
              && db.events[i].sourceId == input.sourceId {
        return Ok(db.events[i]);
      }
      if IdUsed(db.events, id) {
        return Err(DuplicateId);
      }
      LatestIsLargest(db.events, input.sessionId);
      hide LatestSeq, RowFor, Sent;
      RowIdentity(input, id, LatestSeq(db.events, input.sessionId) + 1, now);
      var row := RowFor(input, id, LatestSeq(db.events, input.sessionId) + 1, now);
      db.events := db.events + [row];
      var all := if input.sessionId in subscribers then subscribers[input.sessionId] else {};
      var waiting := all;
      while waiting != {}
        invariant waiting <= all
        invariant forall l :: l in all ==> l.output == if l in waiting then old(l.output) else Sent(old(l.output), row)
        modifies all
        decreases waiting
      {
        var subscriber :| subscriber in waiting;
        subscriber.Send(row);
        waiting := waiting - {subscriber};
      }
      r := Ok(row);
    }

    method Subscribe(s: SessionId, listener: SseStream)
      modifies this
      ensures subscribers == old(subscribers)[s := old(Listeners(s)) + {listener}]
    {
      var listeners := if s in subscribers then subscribers[s] else {};
      subscribers := subscribers[s := listeners + {listener}];
    }

    /** Afterwards the listener is gone, and so is an empty entry. */
    method Unsubscribe(s: SessionId, listener: SseStream)
      modifies this
      ensures Listeners(s) == old(Listeners(s)) - {listener}
      ensures s in subscribers ==> s in old(subscribers)
      ensures subscribers - {s} == old(subscribers) - {s}
      ensures s in old(subscribers) ==> (s in subscribers <==> old(Listeners(s)) - {listener} != {})
    {
      if s in subscribers {
        var listeners := subscribers[s] - {listener};
        if listeners == {} {
          subscribers := subscribers - {s};
        } else {
          subscribers := subscribers[s := listeners];
        }
      }
    }

    /** The rows of the session beyond the cursor in the order of their numbers; of a numbered log, what is
        left after its first k rows. */
    method Read(s: SessionId, after: After) returns (rows: seq<EventRow>)
      ensures rows == Replay(db.events, s, after) && Sorted(rows, SeqNo)
      ensures forall e :: e in rows <==> e in db.events && PassesCursor(s, after)(e)
      ensures Numbered(db.events, s) ==>
        var log := SessionLog(db.events, s);
        rows == match after
          case Absent => log
          case NotANumber => []
          case Seq(k) => if k <= 0 then log else if |log| <= k then [] else log[k..]
    {
      var kept := Filter(db.events, PassesCursor(s, after));
      rows := StableSort(kept, SeqNo);
      SortOrders(kept, SeqNo);
      forall e ensures e in rows <==> e in db.events && PassesCursor(s, after)(e) {
        SortMember(kept, SeqNo, e);
        FilterMember(db.events, PassesCursor(s, after), e);
      }
      hide Filter, StableSort;
      if Numbered(db.events, s) {
        ReplayMeaning(db.events, s, after);
      }
    }
  }

  lemma RowIdentity(input: NewEvent, id: string, seqNo: int, now: int)
    ensures RowFor(input, id, seqNo, now)
         == EventRow(id, input.sessionId, input.tenantId, input.turnId, input.worker, input.leaseEpoch, seqNo,
                     input.sourceId, input.kind, input.data, now)
  {}

  lemma {:induction false} LatestIsLargest(events: seq<EventRow>, s: SessionId)
    ensures forall i :: 0 <= i < |events| && events[i].sessionId == s ==> events[i].seqNo <= LatestSeq(events, s)
  {
    if events != [] {
      LatestIsLargest(events[..|events| - 1], s);
    }
  }
}
