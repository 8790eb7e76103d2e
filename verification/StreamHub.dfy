/** The worker's bounded event buffers, and the identity its events are reported under. */
module StreamHub {
  import opened Prelude
  import opened Sequences
  import opened HashString
  import opened Records
  import CH = ConsistentHash

  datatype HubEvent = HubEvent(id: nat, sessionId: SessionId, kind: string, data: EventData, at: int)

  /** The cursor of a replay: absent, a number, or text that is not a finite number. */
  datatype Cursor = Start | Id(value: int) | NotFinite

  datatype Buffer = Buffer(nextId: nat, events: seq<HubEvent>)

  /** An unbounded log numbers its events 1, 2, 3, ... */
  ghost predicate Consecutive(log: seq<HubEvent>) {
    forall i :: 0 <= i < |log| ==> log[i].id == i + 1
  }

  /** The last `capacity` elements; nothing for a capacity of 0 or less. */
  function Newest<T>(log: seq<T>, capacity: int): seq<T> {
    if capacity <= 0 then [] else if |log| <= capacity then log else log[|log| - capacity..]
  }

  /** `splice(0, length - capacity)` when the buffer is over its capacity. */
  function DropExcess<T>(events: seq<T>, capacity: int): seq<T> {
    if |events| <= capacity then events else
    var excess := |events| - capacity;
    if excess >= |events| then [] else events[excess..]
  }

  lemma NothingToDrop<T>(events: seq<T>, capacity: int)
    requires |events| <= capacity
    ensures DropExcess(events, capacity) == events
  {}

  lemma NewestGrows<T>(log: seq<T>, e: T, capacity: int)
    ensures DropExcess(Newest(log, capacity) + [e], capacity) == Newest(log + [e], capacity)
  {}

  function After(k: int): HubEvent -> bool { (e: HubEvent) => e.id > k }

  /** Ids are beyond a finite number exactly when they are beyond its integer part. */
  lemma FractionalCursor(number: real, e: HubEvent)
    ensures After(number.Floor)(e) <==> e.id as real > number
  {
    if e.id > number.Floor {
      assert e.id as real >= (number.Floor + 1) as real;
    } else {
      assert e.id as real <= number.Floor as real;
    }
  }

  /** What a hub that never dropped anything would replay. */
  function FullReplay(log: seq<HubEvent>, cursor: Cursor): seq<HubEvent> {
    if cursor.Id? then Filter(log, After(cursor.value)) else log
  }

  /** The buffer keeps the newest events of the unbounded log and the id after its last. */
  ghost predicate Fits(buffer: Buffer, log: seq<HubEvent>, capacity: int) {
    Consecutive(log) && buffer.nextId == |log| + 1 && buffer.events == Newest(log, capacity)
  }

  lemma EmptyFits(capacity: int)
    ensures Fits(Buffer(1, []), [], capacity)
  {}

  lemma PublishFits(buffer: Buffer, log: seq<HubEvent>, capacity: int, event: HubEvent)
    requires Fits(buffer, log, capacity) && event.id == buffer.nextId
    ensures Fits(Buffer(buffer.nextId + 1, DropExcess(buffer.events + [event], capacity)), log + [event], capacity)
  {
    NewestGrows(log, event, capacity);
  }

  class WorkerStreamHub {
    const capacity: int
    var sessions: map<SessionId, Buffer>
    /** Every event ever published, per session. */
    ghost var log: map<SessionId, seq<HubEvent>>

    ghost predicate Valid()
      reads this
    {
      && sessions.Keys == log.Keys
      && forall s :: s in sessions ==> Fits(sessions[s], log[s], capacity)
    }

    constructor (capacity: int := 2000)
      ensures Valid() && this.capacity == capacity && log == map[]
    {
      this.capacity := capacity;
      sessions, log := map[], map[];
    }

    ghost function Published(s: SessionId): seq<HubEvent>
      reads this
    {
      if s in log then log[s] else []
    }

    method Publish(s: SessionId, kind: string, data: EventData, now: int) returns (event: HubEvent)
      requires Valid()
      modifies this
      ensures Valid()
      ensures event == HubEvent(|old(Published(s))| + 1, s, kind, data, now)
      ensures log == old(log)[s := old(Published(s)) + [event]]
    {
      var buffer := Buffer(1, []);
      EmptyFits(capacity);
      if s in sessions {
        buffer := sessions[s];
      }
      event := HubEvent(buffer.nextId, s, kind, data, now);
      PublishFits(buffer, Published(s), capacity, event);
      ghost var before := Published(s);
      assert event.id == |before| + 1;
      hide Fits, Newest, DropExcess;
      var events := buffer.events + [event];
      if |events| > capacity {
        events := DropExcess(events, capacity);
      } else {
        NothingToDrop(events, capacity);
      }
      sessions := sessions[s := Buffer(buffer.nextId + 1, events)];
      log := log[s := before + [event]];
    }

    method Replay(s: SessionId, cursor: Cursor) returns (events: seq<HubEvent>)
      requires Valid()
      ensures s !in log ==> events == []
      ensures s in log ==> events == FullReplay(Newest(log[s], capacity), cursor)
    {
      if s !in sessions {
        return [];
      }
      if cursor.Id? {
        events := Filter(sessions[s].events, After(cursor.value));
      } else {
        events := sessions[s].events;
      }
    }
  }

  /** Replaying from the buffer gives what the unbounded log gives exactly when the cursor is not
      older than the retained window, or nothing was dropped. */
  lemma BoundedReplayIsFull(log: seq<HubEvent>, capacity: int, k: int)
    requires Consecutive(log)
    ensures var dropped := |log| - |Newest(log, capacity)|;
      FullReplay(Newest(log, capacity), Id(k)) == FullReplay(log, Id(k)) <==> dropped == 0 || k >= dropped
  {
    hide Filter;
    var kept := Newest(log, capacity);
    var gone := log[..|log| - |kept|];
    assert log == gone + kept;
    FilterAppend(gone, kept, After(k));
    if k >= |gone| {
      FilterNone(gone, After(k));
    } else if |gone| > 0 {
      var last := gone[|gone| - 1];
      FilterMember(gone, After(k), last);
      assert Filter(gone, After(k)) != [];
    }
  }

  /** The retained ids are consecutive and end with the newest one. */
  lemma RetainedIds(log: seq<HubEvent>, capacity: int)
    requires Consecutive(log)
    ensures var kept := Newest(log, capacity);
      && |kept| == (if capacity <= 0 then 0 else if |log| <= capacity then |log| else capacity)
      && forall i :: 0 <= i < |kept| ==> kept[i].id == |log| - |kept| + i + 1
  {}

  // ---- the source id of a reported event ----

  /** `${workerID}:${event.id}` */
  function SourceId(worker: WorkerId, id: nat): JsString {
    worker + [CH.COLON] + CH.Decimal(id)
  }

  /** Different workers, or different ids of one worker's hub, never share a source id. */
  lemma SourceIdInjective(w1: WorkerId, i: nat, w2: WorkerId, j: nat)
    requires SourceId(w1, i) == SourceId(w2, j)
    ensures w1 == w2 && i == j
  {
    hide CH.Decimal;
    CH.VnodeKeyInjective(w1, i, w2, j);
  }
}
