/** Exactly which steps take a session from its owner, over one step and over a run. */
module LeaseLoss {
  import opened Prelude
  import opened Sequences
  import opened Records
  import opened Placement
  import opened WorkerRegistry
  import opened SessionService
  import opened Scheduler
  import opened TurnService
  import opened Protocol
  import opened Fencing

  /** A pass that sweeps the owner, a prompt that finds the owner unhealthy and another worker to move
      to, or the end of the session. */
  predicate TakesLease(cfg: Config, sys: System, step: Step, s: SessionId)
    requires sys.Sound()
  {
    s in sys.sessions.rows && sys.sessions.rows[s].owner.Some?
    && (var row := sys.sessions.rows[s];
        match step
        case RunOnce(now) =>
          !row.status.Ended? && NewlyStale(sys.workers, now - cfg.heartbeatTimeoutMs)(row.owner.value)
        case PromptPlace(q, id, _, _, _, _) =>
          && id == s && q !in sys.requests && !OwnerHealthy(sys.workers, row)
          && Place(sys.workers, row.userId, row.owner, cfg.placementCandidates).Some?
        case End(id, _) => id == s
        case _ => false)
  }

  lemma RehomedKeepsRows(workers: Workers, sessions: Sessions, cfg: Config, dead: seq<WorkerId>, now: int)
    requires workers.Valid()
    ensures Rehomed(workers, sessions, cfg, dead, now).rows.Keys == sessions.rows.Keys
  {
    hide Replaced, Orphaned;
  }

  lemma PassKeepsLeaseIff(cfg: Config, sys: System, now: int, s: SessionId, w: WorkerId, epoch: int)
    requires sys.Sound() && CurrentLease(sys.sessions, s, w, epoch)
    ensures CurrentLease(AfterPass(cfg, sys, now).sessions, s, w, epoch) <==> !TakesLease(cfg, sys, RunOnce(now), s)
  {
    hide Rehomed, Swept, SweptIds, RehomedIds, NewlyStale, Place;
    PassMeaning(sys.workers, sys.sessions, cfg, now, s);
    RehomedKeepsRows(Swept(sys.workers, now - cfg.heartbeatTimeoutMs), sys.sessions, cfg,
                     SweptIds(sys.workers, now - cfg.heartbeatTimeoutMs), now);
  }

  lemma PlaceKeepsLeaseIff(cfg: Config, sys: System, step: Step, s: SessionId, w: WorkerId, epoch: int)
    requires sys.Sound() && CurrentLease(sys.sessions, s, w, epoch) && step.PromptPlace?
    ensures CurrentLease(AfterPlace(cfg, sys, step.request, step.session, step.userId, step.content, step.clientKey,
                                    step.now).sessions, s, w, epoch)
       <==> !TakesLease(cfg, sys, step, s)
  {
    hide Place;
  }

  lemma CreateKeepsLease(cfg: Config, sys: System, id: SessionId, details: NewSession, now: int, s: SessionId)
    requires sys.Sound() && s in sys.sessions.rows
    ensures var after := AfterCreate(cfg, sys, id, details, now).sessions;
      s in after.rows && after.rows[s] == sys.sessions.rows[s]
  {
    hide Place, Filter;
  }

  /** A step keeps a current lease current if and only if it is none of those. */
  lemma StepKeepsLeaseIff(cfg: Config, sys: System, step: Step, s: SessionId, w: WorkerId, epoch: int)
    requires sys.Sound() && CurrentLease(sys.sessions, s, w, epoch)
    ensures CurrentLease(Next(cfg, sys, step).sessions, s, w, epoch) <==> !TakesLease(cfg, sys, step, s)
  {
    hide AfterPass, AfterCreate, AfterPlace, AfterLoad, AfterTurn, AfterLease, AfterReply, AfterIngest, Place;
    match step
    case RunOnce(now) => PassKeepsLeaseIff(cfg, sys, now, s, w, epoch);
    case Create(id, details, now) => CreateKeepsLease(cfg, sys, id, details, now, s);
    case PromptPlace(_, _, _, _, _, _) => PlaceKeepsLeaseIff(cfg, sys, step, s, w, epoch);
    case End(id, now) =>
    case Register(_, _) => WorkerStepsAdvance(cfg, sys, step);
    case Heartbeat(_, _, _, _) => WorkerStepsAdvance(cfg, sys, step);
    case SetStatus(_, _) => WorkerStepsAdvance(cfg, sys, step);
    case _ => TurnStepsAdvance(cfg, sys, step);
  }

  /** No step of the run takes the lease. */
  ghost predicate Untaken(cfg: Config, sys: System, steps: seq<Step>, s: SessionId)
    requires sys.Sound()
  {
    forall n :: 0 <= n < |steps| ==> !TakesLease(cfg, Exec(cfg, sys, steps[..n]), steps[n], s)
  }

  lemma UntakenSnoc(cfg: Config, sys: System, steps: seq<Step>, s: SessionId)
    requires sys.Sound() && steps != []
    ensures var front := steps[..|steps| - 1];
      Untaken(cfg, sys, steps, s)
      <==> Untaken(cfg, sys, front, s) && !TakesLease(cfg, Exec(cfg, sys, front), steps[|steps| - 1], s)
  {
    hide Exec, TakesLease;
    var front := steps[..|steps| - 1];
    assert forall n :: 0 <= n < |front| ==> front[n] == steps[n] && front[..n] == steps[..n];
  }

  lemma LostBeforeIsLost(before: Sessions, mid: Sessions, after: Sessions, s: SessionId, w: WorkerId, epoch: int)
    requires SessionsAdvance(before, mid) && SessionsAdvance(mid, after)
    requires CurrentLease(before, s, w, epoch) && CurrentLease(after, s, w, epoch)
    ensures CurrentLease(mid, s, w, epoch)
  {}

  /** Over a run a current lease stays current if and only if no step takes it. */
  lemma {:induction false} RunKeepsLeaseIff(cfg: Config, sys: System, steps: seq<Step>, s: SessionId, w: WorkerId,
                                            epoch: int)
    requires sys.Sound() && CurrentLease(sys.sessions, s, w, epoch)
    ensures CurrentLease(Exec(cfg, sys, steps).sessions, s, w, epoch) <==> Untaken(cfg, sys, steps, s)
  {
    if steps != [] {
      var front, step := steps[..|steps| - 1], steps[|steps| - 1];
      var mid := Exec(cfg, sys, front);
      hide Next, TakesLease, Untaken;
      RunKeepsLeaseIff(cfg, sys, front, s, w, epoch);
      UntakenSnoc(cfg, sys, steps, s);
      LeasesAdvance(cfg, sys, front);
      StepAdvancesSessions(cfg, mid, step);
      if CurrentLease(mid.sessions, s, w, epoch) {
        StepKeepsLeaseIff(cfg, mid, step, s, w, epoch);
      } else if CurrentLease(Next(cfg, mid, step).sessions, s, w, epoch) {
        LostBeforeIsLost(sys.sessions, mid.sessions, Next(cfg, mid, step).sessions, s, w, epoch);
      }
    }
  }

  // ---- steps of other requests ----

  predicate LeavesRequest(step: Step, q: nat) {
    match step
    case PromptPlace(r, _, _, _, _, _) => r != q
    case PromptLoad(r) => r != q
    case PromptCreate(r, _, _, _) => r != q
    case PromptLease(r, _) => r != q
    case PromptReply(r, _, _, _) => r != q
    case Restart => false
    case _ => true
  }

  ghost predicate LeaveRequest(steps: seq<Step>, q: nat) {
    forall n :: 0 <= n < |steps| ==> LeavesRequest(steps[n], q)
  }

  lemma StepLeavesRequest(cfg: Config, sys: System, step: Step, q: nat)
    requires sys.Sound() && q in sys.requests && LeavesRequest(step, q)
    ensures q in Next(cfg, sys, step).requests && Next(cfg, sys, step).requests[q] == sys.requests[q]
  {
    hide Place, Rehomed, Inserted, Prompted, Admitted, AdmissionOutcome, HeldBy, Ingest.Ingested;
  }

  lemma {:induction false} RequestStays(cfg: Config, sys: System, steps: seq<Step>, q: nat)
    requires sys.Sound() && q in sys.requests && LeaveRequest(steps, q)
    ensures q in Exec(cfg, sys, steps).requests && Exec(cfg, sys, steps).requests[q] == sys.requests[q]
  {
    hide Next, LeavesRequest;
    if steps != [] {
      RequestStays(cfg, sys, steps[..|steps| - 1], q);
      StepLeavesRequest(cfg, Exec(cfg, sys, steps[..|steps| - 1]), steps[|steps| - 1], q);
    }
  }
}
