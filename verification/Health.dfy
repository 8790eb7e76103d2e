/** Ownership and worker health over every run. */
module Health {
  import opened Prelude
  import opened Sequences
  import opened Records
  import opened Placement
  import opened WorkerRegistry
  import opened SessionService
  import opened Protocol

  /** Every owner is a registered worker that is not unhealthy; ended sessions have no owner. */
  ghost predicate OwnersHealthy(workers: Workers, sessions: Sessions) {
    forall s :: s in sessions.rows && sessions.rows[s].owner.Some? ==>
      && !sessions.rows[s].status.Ended?
      && sessions.rows[s].owner.value in workers.rows
      && !workers.rows[sessions.rows[s].owner.value].status.Unhealthy?
  }

  /** Nobody marks a worker unhealthy by hand. */
  predicate ByHeartbeatOnly(step: Step) {
    step.SetStatus? ==> !step.status.Unhealthy?
  }

  lemma PassKeepsOwnersHealthy(cfg: Config, sys: System, now: int)
    requires sys.Sound() && OwnersHealthy(sys.workers, sys.sessions)
    ensures var after := AfterPass(cfg, sys, now); OwnersHealthy(after.workers, after.sessions)
  {
    var cutoff := now - cfg.heartbeatTimeoutMs;
    var after := AfterPass(cfg, sys, now);
    SweptIdsAreTheNewlyStale(sys.workers, cutoff);
    hide Filter, Place;
    forall s | s in after.sessions.rows && after.sessions.rows[s].owner.Some?
      ensures && !after.sessions.rows[s].status.Ended?
              && after.sessions.rows[s].owner.value in after.workers.rows
              && !after.workers.rows[after.sessions.rows[s].owner.value].status.Unhealthy?
    {
      var row := sys.sessions.rows[s];
      PlaceIsEligible(after.workers, row.userId, row.owner, cfg.placementCandidates);
    }
  }

  lemma CreateKeepsOwnersHealthy(cfg: Config, sys: System, id: SessionId, details: NewSession, now: int)
    requires sys.Sound() && OwnersHealthy(sys.workers, sys.sessions)
    ensures var after := AfterCreate(cfg, sys, id, details, now); OwnersHealthy(after.workers, after.sessions)
  {
    hide Place, Filter;
    PlaceIsEligible(sys.workers, details.userId, None, cfg.placementCandidates);
  }

  lemma PlaceKeepsOwnersHealthy(cfg: Config, sys: System, request: nat, s: SessionId, userId: UserId, content: string,
                                key: Option<string>, now: int)
    requires sys.Sound() && OwnersHealthy(sys.workers, sys.sessions)
    ensures var after := AfterPlace(cfg, sys, request, s, userId, content, key, now);
      OwnersHealthy(after.workers, after.sessions)
  {
    hide Place;
    if s in sys.sessions.rows {
      var row := sys.sessions.rows[s];
      PlaceIsEligible(sys.workers, row.userId, row.owner, cfg.placementCandidates);
    }
  }

  lemma StepKeepsOwnersHealthy(cfg: Config, sys: System, step: Step)
    requires sys.Sound() && OwnersHealthy(sys.workers, sys.sessions) && ByHeartbeatOnly(step)
    ensures var after := Next(cfg, sys, step); OwnersHealthy(after.workers, after.sessions)
  {
    hide AfterPass, AfterCreate, AfterPlace, TurnService.AdmissionOutcome, TurnService.Admitted, Ingest.Ingested;
    match step
    case RunOnce(now) => PassKeepsOwnersHealthy(cfg, sys, now);
    case Create(id, details, now) => CreateKeepsOwnersHealthy(cfg, sys, id, details, now);
    case PromptPlace(r, s, user, content, key, now) => PlaceKeepsOwnersHealthy(cfg, sys, r, s, user, content, key, now);
    case _ =>
  }

  /** Without manual marking, no reachable state has a session owned by an unhealthy worker. */
  lemma {:induction false} NoUnhealthyOwner(cfg: Config, steps: seq<Step>)
    requires forall i :: 0 <= i < |steps| ==> ByHeartbeatOnly(steps[i])
    ensures INIT.Sound()
    ensures var sys := Exec(cfg, INIT, steps); OwnersHealthy(sys.workers, sys.sessions)
  {
    hide Next;
    if steps != [] {
      var front := steps[..|steps| - 1];
      NoUnhealthyOwner(cfg, front);
      StepKeepsOwnersHealthy(cfg, Exec(cfg, INIT, front), steps[|steps| - 1]);
    }
  }

  /** Marking a worker unhealthy by hand breaks this exactly when it owns a session, */
  lemma ManualMarkBreaksOwners(cfg: Config, sys: System, w: WorkerId)
    requires sys.Sound() && OwnersHealthy(sys.workers, sys.sessions) && w in sys.workers.rows
    ensures var after := Next(cfg, sys, SetStatus(w, Unhealthy));
      OwnersHealthy(after.workers, after.sessions)
      <==> forall s :: s in sys.sessions.rows ==> sys.sessions.rows[s].owner != Some(w)
  {
    var after := Next(cfg, sys, SetStatus(w, Unhealthy));
    assert after.sessions == sys.sessions;
    assert forall v :: v in sys.workers.rows && v != w ==> after.workers.rows[v] == sys.workers.rows[v];
    assert w in after.workers.rows && after.workers.rows[w].status.Unhealthy?;
  }

  /** and no later pass repairs it: the sweep only rehomes the sessions of workers it marks itself. */
  lemma PassSkipsMarkedWorkers(cfg: Config, sys: System, now: int, s: SessionId, w: WorkerId)
    requires sys.Sound() && s in sys.sessions.rows && sys.sessions.rows[s].owner == Some(w)
    requires w in sys.workers.rows && sys.workers.rows[w].status.Unhealthy?
    ensures Next(cfg, sys, RunOnce(now)).sessions.rows[s] == sys.sessions.rows[s]
  {
    hide Filter, Place, Replaced;
    SweptIdsAreTheNewlyStale(sys.workers, now - cfg.heartbeatTimeoutMs);
    assert Next(cfg, sys, RunOnce(now)) == AfterPass(cfg, sys, now);
  }
}
