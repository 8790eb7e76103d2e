/** The session directory: ownership, lease epochs and their transitions. */
module SessionService {
  import opened Prelude
  import opened Sequences
  import opened Records
  import opened Placement
  import opened WorkerRegistry

  datatype NewSession = NewSession(tenantId: string, userId: UserId, title: string,
                                   workspaceId: string, directory: string)

  // ---- transitions of the sessions table ----

  function OpenOf(sessions: Sessions, userId: UserId): SessionId -> bool {
    (s: SessionId) => s in sessions.rows && sessions.rows[s].userId == userId && !sessions.rows[s].status.Ended?
  }

  function OpenCount(sessions: Sessions, userId: UserId): nat {
    |Filter(sessions.order, OpenOf(sessions, userId))|
  }

  /** The count is that of the sessions of the user that are not ended. */
  lemma OpenCountMeaning(sessions: Sessions, userId: UserId)
    requires sessions.Valid()
    ensures OpenCount(sessions, userId)
         == |set s | s in sessions.rows && sessions.rows[s].userId == userId && sessions.rows[s].status != Ended|
  {
    var p := OpenOf(sessions, userId);
    forall s ensures s in Filter(sessions.order, p)
        <==> s in sessions.rows && sessions.rows[s].userId == userId && sessions.rows[s].status != Ended
    {
      FilterMember(sessions.order, p, s);
    }
    FilterKeepsDistinct(sessions.order, p);
    DistinctSize(Filter(sessions.order, p),
                 set s | s in sessions.rows && sessions.rows[s].userId == userId && sessions.rows[s].status != Ended);
  }

  /** The row a new session gets when it is placed on `worker`. */
  function FirstRow(input: NewSession, worker: WorkerId, now: int): SessionRow {
    SessionRow(input.userId, input.tenantId, input.title, input.workspaceId, input.directory,
               Assigned, Some(worker), 1, now, now, None)
  }

  function Inserted(workers: Workers, sessions: Sessions, cfg: Config, id: SessionId, input: NewSession, now: int)
    : Result<Sessions, ServiceError>
    requires workers.Valid()
  {
    if cfg.maxSessionsPerUser > 0 && OpenCount(sessions, input.userId) >= cfg.maxSessionsPerUser then
      Err(QuotaExceeded)
    else
      match Place(workers, input.userId, None, cfg.placementCandidates)
      case None => Err(NoWorkerAvailable)
      case Some(worker) =>
        if id in sessions.rows then Err(DuplicateId)
        else Ok(sessions.Put(id, FirstRow(input, worker, now)))
  }

  /** The row under a new lease. */
  function NextLease(row: SessionRow, owner: Option<WorkerId>, status: SessionStatus, now: int): SessionRow {
    row.(owner := owner, leaseEpoch := row.leaseEpoch + 1, status := status, updatedAt := now)
  }

  predicate OwnerHealthy(workers: Workers, row: SessionRow) {
    row.owner.Some? && row.owner.value in workers.rows && workers.rows[row.owner.value].status.Healthy?
  }

  /** `workerForPrompt`: keeps a healthy owner, otherwise places the session anew. */
  function Prompted(workers: Workers, sessions: Sessions, cfg: Config, id: SessionId, now: int)
    : (r: Result<(Sessions, WorkerId), ServiceError>)
    requires workers.Valid()
  {
    if id !in sessions.rows then Err(SessionNotFound) else
    var row := sessions.rows[id];
    if OwnerHealthy(workers, row) then Ok((sessions, row.owner.value)) else
    match Place(workers, row.userId, row.owner, cfg.placementCandidates)
    case None => Err(NoWorkerAvailable)
    case Some(worker) => Ok((sessions.Put(id, NextLease(row, Some(worker), Assigned, now)), worker))
  }

  /** Non-ended and owned by one of the given workers. */
  predicate Orphaned(row: SessionRow, dead: seq<WorkerId>) {
    row.owner.Some? && row.owner.value in dead && !row.status.Ended?
  }

  function Replaced(workers: Workers, cfg: Config, row: SessionRow, now: int): SessionRow
    requires workers.Valid()
  {
    NextLease(row, Place(workers, row.userId, row.owner, cfg.placementCandidates), Recovering, now)
  }

  /** Every orphan of the dead workers gets its next lease; nothing else changes. */
  function Rehomed(workers: Workers, sessions: Sessions, cfg: Config, dead: seq<WorkerId>, now: int): Sessions
    requires workers.Valid()
  {
    Table(map s | s in sessions.rows ::
            if Orphaned(sessions.rows[s], dead) then Replaced(workers, cfg, sessions.rows[s], now)
            else sessions.rows[s],
          sessions.order)
  }

  function OwnedOpen(sessions: Sessions, w: WorkerId): SessionId -> bool {
    (s: SessionId) => s in sessions.rows && Orphaned(sessions.rows[s], [w])
  }

  /** The non-ended sessions of a worker in table order. */
  function OrphanIds(sessions: Sessions, w: WorkerId): seq<SessionId> {
    Filter(sessions.order, OwnedOpen(sessions, w))
  }

  function EndedAt(sessions: Sessions, id: SessionId, now: int): Sessions {
    if id !in sessions.rows then sessions else
    sessions.Put(id, sessions.rows[id].(status := Ended, endedAt := Some(now), updatedAt := now, owner := None))
  }

  // ---- the service ----

  class SessionService {
    const db: Database
    const registry: WorkerRegistry
    const cfg: Config

    constructor (db: Database, registry: WorkerRegistry, cfg: Config)
      ensures this.db == db && this.registry == registry && this.cfg == cfg
    {
      this.db, this.registry, this.cfg := db, registry, cfg;
    }

    method Create(id: SessionId, input: NewSession, now: int) returns (r: Result<WorkerId, ServiceError>)
      requires registry.db == db && db.workers.Valid() && db.sessions.Valid()
      modifies db`sessions
      ensures db.sessions.Valid()
      ensures var made := Inserted(db.workers, old(db.sessions), cfg, id, input, now);
        match r
        case Err(e) => made == Err(e) && db.sessions == old(db.sessions)
        case Ok(w) => made == Ok(db.sessions) && id in db.sessions.rows && db.sessions.rows[id].owner == Some(w)
      ensures r == Err(QuotaExceeded) <==>
        cfg.maxSessionsPerUser > 0
        && |set s | s in old(db.sessions.rows) && old(db.sessions.rows[s].userId) == input.userId
                    && old(db.sessions.rows[s].status) != Ended| >= cfg.maxSessionsPerUser
      ensures r.Ok? ==>
        && id !in old(db.sessions.rows) && db.sessions.order == old(db.sessions.order) + [id]
        && db.sessions.rows == old(db.sessions.rows)[id := db.sessions.rows[id]]
        && (var row := db.sessions.rows[id];
            && row.userId == input.userId && row.tenantId == input.tenantId && row.title == input.title
            && row.workspaceId == input.workspaceId && row.directory == input.directory
            && row.status == Assigned && row.leaseEpoch == 1
            && row.createdAt == now && row.updatedAt == now && row.endedAt == None)
    {
      OpenCountMeaning(db.sessions, input.userId);
      hide Place, Filter;
      if cfg.maxSessionsPerUser > 0 {
        var active := Filter(db.sessions.order, OpenOf(db.sessions, input.userId));
        if |active| >= cfg.maxSessionsPerUser {
          return Err(QuotaExceeded);
        }
      }
      var worker := ChoosePlace(registry, input.userId, None, cfg.placementCandidates);
      if worker.None? {
        return Err(NoWorkerAvailable);
      }
      if id in db.sessions.rows {
        return Err(DuplicateId);
      }
      db.sessions := db.sessions.Put(id, FirstRow(input, worker.value, now));
      r := Ok(worker.value);
    }

    method WorkerForPrompt(id: SessionId, now: int) returns (r: Result<WorkerId, ServiceError>)
      requires registry.db == db && db.workers.Valid() && db.sessions.Valid()
      modifies db`sessions
      ensures db.sessions.Valid()
      ensures var done := Prompted(db.workers, old(db.sessions), cfg, id, now);
        match r
        case Err(e) => done == Err(e) && db.sessions == old(db.sessions)
        case Ok(w) => done == Ok((db.sessions, w))
      ensures r == Err(SessionNotFound) <==> id !in old(db.sessions.rows)
      ensures r.Ok? ==>
        && id in old(db.sessions.rows) && db.sessions.order == old(db.sessions.order)
        && (var was := old(db.sessions.rows[id]);
            db.sessions.rows ==
              if was.owner.Some? && was.owner.value in db.workers.rows
                 && db.workers.rows[was.owner.value].status == Healthy
              then old(db.sessions.rows)
              else old(db.sessions.rows)[id := was.(owner := Some(r.value), leaseEpoch := was.leaseEpoch + 1,
                                                    status := Assigned, updatedAt := now)])
    {
      hide Place;
      if id !in db.sessions.rows {
        return Err(SessionNotFound);
      }
      var session := db.sessions.rows[id];
      if session.owner.Some? && session.owner.value in db.workers.rows
         && db.workers.rows[session.owner.value].status == Healthy {
        return Ok(session.owner.value);
      }
      var worker := ChoosePlace(registry, session.userId, session.owner, cfg.placementCandidates);
      if worker.None? {
        return Err(NoWorkerAvailable);
      }
      session := session.(owner := worker, leaseEpoch := session.leaseEpoch + 1);
      session := session.(status := Assigned, updatedAt := now);
      db.sessions := db.sessions.Put(id, session);
      r := Ok(worker.value);
    }

    /** Moves every non-ended session of a worker to its next lease. */
    method RehomeWorkerSessions(w: WorkerId, now: int) returns (rehomed: seq<SessionId>)
      requires registry.db == db && db.workers.Valid() && db.sessions.Valid()
      modifies db`sessions
      ensures db.sessions == Rehomed(db.workers, old(db.sessions), cfg, [w], now) && db.sessions.Valid()
      ensures rehomed == OrphanIds(old(db.sessions), w)
    {
      hide Filter, Place, Replaced, Rehomed, Moved, OrphanIds, Orphaned;
      var before := db.sessions;
      var ids := OrphanIds(before, w);
      OrphanIdsMeaning(before, w);
      RehomeStarts(db.workers, before, cfg, now);
      rehomed := [];
      for i := 0 to |ids|
        invariant rehomed == ids[..i]
        invariant db.sessions == Moved(db.workers, before, cfg, ids[..i], now)
      {
        assert ids[i] in ids;
        var row := before.rows[ids[i]];
        var worker := ChoosePlace(registry, row.userId, Some(w), cfg.placementCandidates);
        row := row.(owner := worker, leaseEpoch := row.leaseEpoch + 1, status := Recovering, updatedAt := now);
        MoveIsReplacement(db.workers, cfg, before.rows[ids[i]], row, now);
        RehomeSteps(db.workers, before, cfg, ids, i, now);
        db.sessions := Table(db.sessions.rows[ids[i] := row], db.sessions.order);
        rehomed := rehomed + [ids[i]];
      }
      assert ids[..|ids|] == ids;
      RehomeEnds(db.workers, before, cfg, w, now);
    }

    method End(id: SessionId, now: int)
      requires db.sessions.Valid()
      modifies db`sessions
      ensures db.sessions == EndedAt(old(db.sessions), id, now) && db.sessions.Valid()
      ensures db.sessions.order == old(db.sessions.order)
      ensures db.sessions.rows == if id !in old(db.sessions.rows) then old(db.sessions.rows)
        else old(db.sessions.rows)[id := old(db.sessions.rows[id]).(status := Ended, endedAt := Some(now),
                                                                   updatedAt := now, owner := None)]
    {
      if id in db.sessions.rows {
        var row := db.sessions.rows[id];
        db.sessions := db.sessions.Put(id, row.(status := Ended, endedAt := Some(now), updatedAt := now, owner := None));
      }
    }
  }

  /** The table after the listed sessions have been moved. */
  function Moved(workers: Workers, sessions: Sessions, cfg: Config, ids: seq<SessionId>, now: int): Sessions
    requires workers.Valid()
  {
    Table(map s | s in sessions.rows ::
            if s in ids then Replaced(workers, cfg, sessions.rows[s], now) else sessions.rows[s],
          sessions.order)
  }

  lemma MoveIsReplacement(workers: Workers, cfg: Config, before: SessionRow, after: SessionRow, now: int)
    requires workers.Valid()
    requires after == before.(owner := Place(workers, before.userId, before.owner, cfg.placementCandidates),
                              leaseEpoch := before.leaseEpoch + 1, status := Recovering, updatedAt := now)
    ensures after == Replaced(workers, cfg, before, now)
  {
    hide Place;
  }

  lemma RehomeStarts(workers: Workers, sessions: Sessions, cfg: Config, now: int)
    requires workers.Valid()
    ensures Moved(workers, sessions, cfg, [], now) == sessions
  {
    hide Replaced;
    assert Moved(workers, sessions, cfg, [], now).rows == sessions.rows;
  }

  lemma RehomeSteps(workers: Workers, sessions: Sessions, cfg: Config, ids: seq<SessionId>, i: nat, now: int)
    requires workers.Valid() && i < |ids| && ids[i] in sessions.rows
    ensures var before := Moved(workers, sessions, cfg, ids[..i], now);
      Moved(workers, sessions, cfg, ids[..i + 1], now)
        == Table(before.rows[ids[i] := Replaced(workers, cfg, sessions.rows[ids[i]], now)], before.order)
  {
    hide Replaced;
    assert ids[..i + 1] == ids[..i] + [ids[i]];
    var before := Moved(workers, sessions, cfg, ids[..i], now);
    assert Moved(workers, sessions, cfg, ids[..i + 1], now).rows
        == before.rows[ids[i] := Replaced(workers, cfg, sessions.rows[ids[i]], now)];
  }

  lemma RehomeEnds(workers: Workers, sessions: Sessions, cfg: Config, w: WorkerId, now: int)
    requires workers.Valid() && sessions.Valid()
    ensures Moved(workers, sessions, cfg, OrphanIds(sessions, w), now) == Rehomed(workers, sessions, cfg, [w], now)
    ensures Rehomed(workers, sessions, cfg, [w], now).Valid()
  {
    hide Replaced, Filter;
    OrphanIdsMeaning(sessions, w);
    assert Moved(workers, sessions, cfg, OrphanIds(sessions, w), now).rows
        == Rehomed(workers, sessions, cfg, [w], now).rows;
  }

  /** What rehoming one worker does to a session: one that it owns and that is not ended moves to another healthy
      worker, or to none when there is no other; the rest stay as they are. */
  lemma RehomedRows(workers: Workers, sessions: Sessions, cfg: Config, w: WorkerId, now: int, s: SessionId)
    requires workers.Valid() && sessions.Valid() && s in sessions.rows
    ensures var after, was := Rehomed(workers, sessions, cfg, [w], now), sessions.rows[s];
      && after.rows.Keys == sessions.rows.Keys && after.order == sessions.order
      && (var row := after.rows[s];
          if was.owner == Some(w) && was.status != Ended then
            && row == was.(owner := row.owner, leaseEpoch := was.leaseEpoch + 1, status := Recovering, updatedAt := now)
            && (row.owner.Some? ==> row.owner != Some(w) && row.owner.value in workers.rows
                                    && workers.rows[row.owner.value].status == Healthy)
            && (row.owner.None? ==> forall v :: v in workers.rows && v != w ==> workers.rows[v].status != Healthy)
          else row == was)
  {
    var was := sessions.rows[s];
    PlaceIsEligible(workers, was.userId, was.owner, cfg.placementCandidates);
    hide Place;
  }

  lemma OrphanIdsMeaning(sessions: Sessions, w: WorkerId)
    requires sessions.Valid()
    ensures NoDuplicates(OrphanIds(sessions, w))
    ensures forall s :: (s in OrphanIds(sessions, w)
        <==> s in sessions.rows && sessions.rows[s].owner == Some(w) && !sessions.rows[s].status.Ended?)
  {
    FilterKeepsDistinct(sessions.order, OwnedOpen(sessions, w));
    forall s ensures s in OrphanIds(sessions, w)
        <==> s in sessions.rows && sessions.rows[s].owner == Some(w) && !sessions.rows[s].status.Ended?
    {
      FilterMember(sessions.order, OwnedOpen(sessions, w), s);
    }
  }
}
