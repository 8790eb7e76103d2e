/** Row types of the tables the services share, and tables in row-id order. */
module Records {
  import opened Prelude
  import opened HashString

  type WorkerId = JsString
  type UserId = JsString
  type SessionId = string
  type TurnId = string

  datatype WorkerStatus = Healthy | Draining | Unhealthy
  datatype SessionStatus = Assigned | Recovering | Ended
  datatype TurnStatus = Pending | Leased | Completed | Failed

  datatype WorkerLoad = WorkerLoad(cpuPct: Option<real>, memPct: Option<real>, activeDrains: Option<real>,
                                   pendingSteer: Option<real>, pendingQueue: Option<real>,
                                   toolProcesses: Option<real>)

  const EMPTY_LOAD := WorkerLoad(Some(0.0), Some(0.0), Some(0.0), Some(0.0), Some(0.0), Some(0.0))

  datatype WorkerRow = WorkerRow(address: string, region: Option<string>, version: Option<string>,
                                 configVersion: Option<string>, status: WorkerStatus, capacity: string,
                                 load: WorkerLoad, lastHeartbeatAt: Option<int>, firstSeenAt: int)

  datatype SessionRow = SessionRow(userId: UserId, tenantId: string, title: string, workspaceId: string,
                                   directory: string, status: SessionStatus, owner: Option<WorkerId>,
                                   leaseEpoch: int, createdAt: int, updatedAt: int, endedAt: Option<int>)

  datatype TurnRow = TurnRow(sessionId: SessionId, userId: UserId, content: string, clientKey: string,
                             status: TurnStatus, leaseEpoch: int, worker: WorkerId,
                             errorMessage: Option<string>, createdAt: int, updatedAt: int,
                             completedAt: Option<int>)
  {
    predicate Active() { status.Pending? || status.Leased? }
  }

  /** The event body; `message` is its `message` field when that is a string. */
  datatype EventData = EventData(body: string, message: Option<string>)

  datatype EventRow = EventRow(id: string, sessionId: SessionId, tenantId: string, turnId: TurnId,
                               worker: WorkerId, leaseEpoch: int, seqNo: int, sourceId: JsString,
                               kind: string, data: EventData, receivedAt: int)

  datatype ServiceError =
    | SessionNotFound | NoWorkerAvailable | QuotaExceeded | UnknownWorker
    | ActiveTurn | StaleTurnLease | StaleLease | DuplicateId | BadRequest | Forbidden | WorkerUnavailable

  /** A table keyed by primary key; `order` lists the keys in row-id order. */
  datatype Table<K(==, !new), V> = Table(rows: map<K, V>, order: seq<K>) {
    ghost predicate Valid() {
      && (forall k :: k in order <==> k in rows)
      && (forall i, j :: 0 <= i < j < |order| ==> order[i] != order[j])
    }

    function Put(k: K, v: V): Table<K, V> {
      Table(rows[k := v], if k in rows then order else order + [k])
    }
  }

  lemma PutKeepsValid<K(!new), V>(t: Table<K, V>, k: K, v: V)
    requires t.Valid()
    ensures t.Put(k, v).Valid()
  {}

  type Workers = Table<WorkerId, WorkerRow>
  type Sessions = Table<SessionId, SessionRow>
  type Turns = map<TurnId, TurnRow>

  datatype Config = Config(maxSessionsPerUser: int, placementCandidates: int, heartbeatTimeoutMs: int)

  const NO_WORKERS: Table<WorkerId, WorkerRow> := Table(map[], [])
  const NO_SESSIONS: Table<SessionId, SessionRow> := Table(map[], [])

  /** The database the services share. */
  class Database {
    var workers: Workers
    var sessions: Sessions
    var turns: Turns
    var events: seq<EventRow>

    constructor ()
      ensures workers == NO_WORKERS && sessions == NO_SESSIONS && turns == map[] && events == []
    {
      workers, sessions, turns, events := NO_WORKERS, NO_SESSIONS, map[], [];
    }
  }
}
