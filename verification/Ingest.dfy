/** Accepting worker events under the lease they were produced in. */
module Ingest {
  import opened Prelude
  import opened HashString
  import opened Records
  import opened TurnService
  import opened EventJournal

  const IDLE := "session.idle"
  const EXECUTION_ERROR := "worker.execution.error"
  const DEFAULT_FAILURE := "worker execution failed"

  datatype Envelope = Envelope(sessionId: SessionId, turnId: TurnId, leaseEpoch: int, sourceId: JsString,
                               kind: string, data: EventData)

  predicate Complete(env: Envelope) {
    env.sessionId != "" && env.turnId != "" && env.sourceId != [] && env.kind != ""
  }

  /** The envelope names its turn's own lease, and that lease is current. */
  predicate LeaseHolds(sessions: Sessions, turns: Turns, worker: WorkerId, env: Envelope) {
    && env.turnId in turns
    && turns[env.turnId].sessionId == env.sessionId
    && turns[env.turnId].worker == worker
    && turns[env.turnId].leaseEpoch == env.leaseEpoch
    && CurrentLease(sessions, env.sessionId, worker, env.leaseEpoch)
  }

  function EventOf(sessions: Sessions, worker: WorkerId, env: Envelope): NewEvent
    requires env.sessionId in sessions.rows
  {
    NewEvent(env.sessionId, sessions.rows[env.sessionId].tenantId, env.turnId, worker, env.leaseEpoch,
             env.sourceId, env.kind, env.data)
  }

  /** What the accepted event does to its turn. */
  function TurnsAfter(turns: Turns, worker: WorkerId, env: Envelope, now: int): Turns {
    if env.kind == IDLE then CompletedTurn(turns, env.turnId, worker, env.leaseEpoch, now)
    else if env.kind == EXECUTION_ERROR then
      FailedTurn(turns, env.turnId, worker, env.leaseEpoch, env.data.message.GetOr(DEFAULT_FAILURE), now)
    else turns
  }

  function Ingested(sessions: Sessions, turns: Turns, events: seq<EventRow>, worker: WorkerId, env: Envelope,
                    id: string, now: int): Result<(Turns, seq<EventRow>), ServiceError>
  {
    if !Complete(env) then Err(BadRequest)
    else if !LeaseHolds(sessions, turns, worker, env) then Err(StaleLease)
    else
      match Appended(events, EventOf(sessions, worker, env), id, now)
      case Err(e) => Err(e)
      case Ok(appended) => Ok((TurnsAfter(turns, worker, env, now), appended))
  }
}
