/** One scheduler pass: sweep the stale workers, then rehome their sessions. */
module Scheduler {
  import opened Prelude
  import opened Sequences
  import opened Records
  import opened Placement
  import opened WorkerRegistry
  import opened SessionService

  datatype Report = Report(unhealthyWorkers: seq<WorkerId>, rehomedSessions: seq<SessionId>)

  /** The orphans of each listed worker, one worker after the other. */
  function RehomedIds(sessions: Sessions, dead: seq<WorkerId>): seq<SessionId> {
    if dead == [] then []
    else RehomedIds(sessions, dead[..|dead| - 1]) + OrphanIds(sessions, dead[|dead| - 1])
  }

  /** No listed worker is eligible for placement. */
  ghost predicate AllUnhealthy(workers: Workers, dead: seq<WorkerId>) {
    forall w :: w in dead && w in workers.rows ==> workers.rows[w].status.Unhealthy?
  }

  lemma ReplacementLeavesTheDead(workers: Workers, cfg: Config, row: SessionRow, dead: seq<WorkerId>, now: int)
    requires workers.Valid() && AllUnhealthy(workers, dead)
    ensures !Orphaned(Replaced(workers, cfg, row, now), dead)
  {
    PlaceIsEligible(workers, row.userId, row.owner, cfg.placementCandidates);
    hide Place;
  }

  /** Rehoming worker after worker is the simultaneous rehoming of all of them. */
  lemma RehomeNext(workers: Workers, sessions: Sessions, cfg: Config, dead: seq<WorkerId>, w: WorkerId, now: int)
    requires workers.Valid() && AllUnhealthy(workers, dead + [w]) && w !in dead
    ensures Rehomed(workers, Rehomed(workers, sessions, cfg, dead, now), cfg, [w], now)
         == Rehomed(workers, sessions, cfg, dead + [w], now)
    ensures OrphanIds(Rehomed(workers, sessions, cfg, dead, now), w) == OrphanIds(sessions, w)
  {
    var mid := Rehomed(workers, sessions, cfg, dead, now);
    forall s | s in sessions.rows
      ensures Orphaned(mid.rows[s], [w]) <==> Orphaned(sessions.rows[s], [w])
      ensures Orphaned(sessions.rows[s], dead + [w])
          <==> Orphaned(sessions.rows[s], dead) || Orphaned(sessions.rows[s], [w])
      ensures !(Orphaned(sessions.rows[s], dead) && Orphaned(sessions.rows[s], [w]))
    {
      hide Replaced;
      if Orphaned(sessions.rows[s], dead) {
        assert AllUnhealthy(workers, [w]) by { assert w in dead + [w]; }
        ReplacementLeavesTheDead(workers, cfg, sessions.rows[s], [w], now);
      }
    }
    hide Orphaned, Replaced, Filter;
    assert Rehomed(workers, mid, cfg, [w], now).rows == Rehomed(workers, sessions, cfg, dead + [w], now).rows;
    forall i | 0 <= i < |sessions.order|
      ensures OwnedOpen(mid, w)(sessions.order[i]) == OwnedOpen(sessions, w)(sessions.order[i])
    {}
    FilterCongruent(sessions.order, OwnedOpen(mid, w), OwnedOpen(sessions, w));
  }

  lemma RehomeNobody(workers: Workers, sessions: Sessions, cfg: Config, now: int)
    requires workers.Valid()
    ensures Rehomed(workers, sessions, cfg, [], now) == sessions
  {
    hide Replaced;
    assert Rehomed(workers, sessions, cfg, [], now).rows == sessions.rows;
  }

  lemma SweptAreUnhealthy(workers: Workers, cutoff: int)
    requires workers.Valid()
    ensures Swept(workers, cutoff).Valid() && AllUnhealthy(Swept(workers, cutoff), SweptIds(workers, cutoff))
    ensures NoDuplicates(SweptIds(workers, cutoff))
  {
    hide Filter;
    SweptIdsAreTheNewlyStale(workers, cutoff);
  }

  class Scheduler {
    const registry: WorkerRegistry
    const sessions: SessionService
    const cfg: Config
    const db: Database

    constructor (registry: WorkerRegistry, sessions: SessionService, cfg: Config)
      requires sessions.registry == registry && registry.db == sessions.db && sessions.cfg == cfg
      ensures this.registry == registry && this.sessions == sessions && this.cfg == cfg && db == registry.db
    {
      this.registry, this.sessions, this.cfg, this.db := registry, sessions, cfg, registry.db;
    }

    method RunOnce(now: int) returns (report: Report)
      requires sessions.registry == registry && registry.db == db && sessions.db == db && sessions.cfg == cfg
      requires db.workers.Valid() && db.sessions.Valid()
      modifies db`workers, db`sessions
      ensures db.workers == Swept(old(db.workers), now - cfg.heartbeatTimeoutMs) && db.workers.Valid()
      ensures report.unhealthyWorkers == SweptIds(old(db.workers), now - cfg.heartbeatTimeoutMs)
      ensures db.sessions == Rehomed(db.workers, old(db.sessions), cfg, report.unhealthyWorkers, now)
      ensures db.sessions.Valid()
      ensures report.rehomedSessions == RehomedIds(old(db.sessions), report.unhealthyWorkers)
    {
      hide Rehomed, OrphanIds, Swept, SweptIds, AllUnhealthy;
      ghost var before := db.sessions;
      SweptAreUnhealthy(db.workers, now - cfg.heartbeatTimeoutMs);
      var dead := registry.Sweep(cfg.heartbeatTimeoutMs, now);
      var rehomed := [];
      RehomeNobody(db.workers, before, cfg, now);
      for i := 0 to |dead|
        invariant db.workers == Swept(old(db.workers), now - cfg.heartbeatTimeoutMs)
        invariant db.sessions == Rehomed(db.workers, before, cfg, dead[..i], now) && db.sessions.Valid()
        invariant rehomed == RehomedIds(before, dead[..i])
      {
        assert dead[..i + 1] == dead[..i] + [dead[i]];
        PrefixUnhealthy(db.workers, dead, i + 1);
        RehomeNext(db.workers, before, cfg, dead[..i], dead[i], now);
        var moved := sessions.RehomeWorkerSessions(dead[i], now);
        rehomed := rehomed + moved;
      }
      assert dead[..|dead|] == dead;
      report := Report(dead, rehomed);
    }
  }

  lemma PrefixUnhealthy(workers: Workers, dead: seq<WorkerId>, n: nat)
    requires n <= |dead| && AllUnhealthy(workers, dead)
    ensures AllUnhealthy(workers, dead[..n])
  {}

  // ---- what one pass means ----

  lemma {:induction false} RehomedIdsMeaning(sessions: Sessions, dead: seq<WorkerId>)
    requires sessions.Valid() && NoDuplicates(dead)
    ensures NoDuplicates(RehomedIds(sessions, dead))
    ensures forall s :: s in RehomedIds(sessions, dead) <==> s in sessions.rows && Orphaned(sessions.rows[s], dead)
  {
    if dead != [] {
      hide OrphanIds;
      var front, w := dead[..|dead| - 1], dead[|dead| - 1];
      assert dead == front + [w];
      RehomedIdsMeaning(sessions, front);
      OrphanIdsMeaning(sessions, w);
    }
  }

  /** A pass rehomes exactly the non-ended sessions of newly stale workers, lists each once,
      raises their epochs by one and no other, and never picks a worker swept in the same pass. */
  lemma PassMeaning(workers: Workers, sessions: Sessions, cfg: Config, now: int, s: SessionId)
    requires workers.Valid() && sessions.Valid() && s in sessions.rows
    ensures
      var cutoff := now - cfg.heartbeatTimeoutMs;
      var dead, workers' := SweptIds(workers, cutoff), Swept(workers, cutoff);
      var before := sessions.rows[s];
      var listed := RehomedIds(sessions, dead);
      && workers'.Valid() && NoDuplicates(listed)
      && (s in listed <==>
            before.owner.Some? && !before.status.Ended? && NewlyStale(workers, cutoff)(before.owner.value))
      && (var after := Rehomed(workers', sessions, cfg, dead, now).rows[s];
          if s in listed then
            && after.leaseEpoch == before.leaseEpoch + 1 && after.status.Recovering?
            && (after.owner.Some? ==> (after.owner != before.owner && after.owner.value !in dead
                  && after.owner.value in workers'.rows && workers'.rows[after.owner.value].status.Healthy?))
            && (after.owner.None? ==> forall w :: w in workers'.rows ==> !workers'.rows[w].status.Healthy?)
          else after == before)
  {
    hide Filter, Place;
    var cutoff := now - cfg.heartbeatTimeoutMs;
    var dead := SweptIds(workers, cutoff);
    SweptIdsAreTheNewlyStale(workers, cutoff);
    SweptAreUnhealthy(workers, cutoff);
    RehomedIdsMeaning(sessions, dead);
    var row := sessions.rows[s];
    PlaceIsEligible(Swept(workers, cutoff), row.userId, row.owner, cfg.placementCandidates);
  }
}
