/** Ended sessions: they have no owner, and exactly one kind of step brings one back. */
module Revival {
  import opened Prelude
  import opened Sequences
  import opened Records
  import opened Placement
  import opened WorkerRegistry
  import opened SessionService
  import opened Protocol

  predicate IsEnded(sys: System, s: SessionId) {
    s in sys.sessions.rows && sys.sessions.rows[s].status.Ended?
  }

  ghost predicate EndedHaveNoOwner(sessions: Sessions) {
    forall s :: s in sessions.rows && sessions.rows[s].status.Ended? ==> sessions.rows[s].owner.None?
  }

  predicate SomeWorkerHealthy(workers: Workers) {
    exists w :: w in workers.rows && workers.rows[w].status.Healthy?
  }

  /** A prompt on the session while some worker is healthy. */
  predicate Revives(sys: System, step: Step, s: SessionId) {
    step.PromptPlace? && step.session == s && step.request !in sys.requests && SomeWorkerHealthy(sys.workers)
  }

  // ---- ended sessions have no owner ----

  lemma PassKeepsNoOwner(cfg: Config, sys: System, now: int)
    requires sys.Sound() && EndedHaveNoOwner(sys.sessions)
    ensures EndedHaveNoOwner(AfterPass(cfg, sys, now).sessions)
  {
    hide Place, Filter;
  }

  lemma CreateKeepsNoOwner(cfg: Config, sys: System, id: SessionId, details: NewSession, now: int)
    requires sys.Sound() && EndedHaveNoOwner(sys.sessions)
    ensures EndedHaveNoOwner(AfterCreate(cfg, sys, id, details, now).sessions)
  {
    hide Place, Filter;
  }

  lemma PlaceKeepsNoOwner(cfg: Config, sys: System, step: Step)
    requires sys.Sound() && EndedHaveNoOwner(sys.sessions) && step.PromptPlace?
    ensures EndedHaveNoOwner(AfterPlace(cfg, sys, step.request, step.session, step.userId, step.content,
                                        step.clientKey, step.now).sessions)
  {
    hide Place;
  }

  lemma StepKeepsNoOwner(cfg: Config, sys: System, step: Step)
    requires sys.Sound() && EndedHaveNoOwner(sys.sessions)
    ensures EndedHaveNoOwner(Next(cfg, sys, step).sessions)
  {
    hide AfterPass, AfterCreate, AfterPlace, AfterLoad, AfterTurn, AfterLease, AfterReply, AfterIngest;
    match step
    case RunOnce(now) => PassKeepsNoOwner(cfg, sys, now);
    case Create(id, details, now) => CreateKeepsNoOwner(cfg, sys, id, details, now);
    case PromptPlace(_, _, _, _, _, _) => PlaceKeepsNoOwner(cfg, sys, step);
    case End(id, now) =>
    case Register(_, _) => WorkerStepsAdvance(cfg, sys, step);
    case Heartbeat(_, _, _, _) => WorkerStepsAdvance(cfg, sys, step);
    case SetStatus(_, _) => WorkerStepsAdvance(cfg, sys, step);
    case _ => TurnStepsAdvance(cfg, sys, step);
  }

  /** In every reachable state an ended session has no owner. */
  lemma {:induction false} EndedNeverOwned(cfg: Config, run: seq<Step>)
    ensures INIT.Sound() && EndedHaveNoOwner(Exec(cfg, INIT, run).sessions)
  {
    hide Next, EndedHaveNoOwner;
    if run == [] {
      assert EndedHaveNoOwner(INIT.sessions) by { NobodyYet(); }
    } else {
      EndedNeverOwned(cfg, run[..|run| - 1]);
      StepKeepsNoOwner(cfg, Exec(cfg, INIT, run[..|run| - 1]), run[|run| - 1]);
    }
  }

  lemma NobodyYet()
    ensures EndedHaveNoOwner(INIT.sessions)
  {}

  // ---- one step ----

  lemma PassKeepsEnded(cfg: Config, sys: System, now: int, s: SessionId)
    requires sys.Sound() && EndedHaveNoOwner(sys.sessions) && IsEnded(sys, s)
    ensures IsEnded(AfterPass(cfg, sys, now), s)
  {
    hide Place, Filter;
  }

  lemma CreateKeepsEnded(cfg: Config, sys: System, id: SessionId, details: NewSession, now: int, s: SessionId)
    requires sys.Sound() && IsEnded(sys, s)
    ensures IsEnded(AfterCreate(cfg, sys, id, details, now), s)
  {
    hide Place, Filter;
  }

  /** A prompt on an ended session succeeds exactly when some worker is healthy. */
  lemma PromptedEnded(workers: Workers, sessions: Sessions, cfg: Config, s: SessionId, now: int)
    requires workers.Valid() && s in sessions.rows && sessions.rows[s].owner.None?
    ensures match Prompted(workers, sessions, cfg, s, now)
      case Err(_) => !SomeWorkerHealthy(workers)
      case Ok((sessions', w)) =>
        && SomeWorkerHealthy(workers) && w in workers.rows && workers.rows[w].status.Healthy?
        && sessions' == sessions.Put(s, NextLease(sessions.rows[s], Some(w), Assigned, now))
  {
    PlaceIsEligible(workers, sessions.rows[s].userId, None, cfg.placementCandidates);
    hide Place;
  }

  lemma PromptedOther(workers: Workers, sessions: Sessions, cfg: Config, id: SessionId, now: int, s: SessionId)
    requires workers.Valid() && s in sessions.rows && id != s
    ensures match Prompted(workers, sessions, cfg, id, now)
      case Err(_) => true
      case Ok((sessions', _)) => s in sessions'.rows && sessions'.rows[s] == sessions.rows[s]
  {
    hide Place;
  }

  lemma PlaceKeepsEndedIff(cfg: Config, sys: System, step: Step, s: SessionId)
    requires sys.Sound() && EndedHaveNoOwner(sys.sessions) && IsEnded(sys, s) && step.PromptPlace?
    ensures IsEnded(AfterPlace(cfg, sys, step.request, step.session, step.userId, step.content, step.clientKey,
                               step.now), s)
       <==> !Revives(sys, step, s)
  {
    if step.session == s {
      PromptedEnded(sys.workers, sys.sessions, cfg, s, step.now);
    } else {
      PromptedOther(sys.workers, sys.sessions, cfg, step.session, step.now, s);
    }
    hide Prompted, SomeWorkerHealthy, EndedHaveNoOwner;
  }

  /** An ended session stays ended in a step if and only if the step is no prompt on it that finds a
      healthy worker. */
  lemma StepKeepsEndedIff(cfg: Config, sys: System, step: Step, s: SessionId)
    requires sys.Sound() && EndedHaveNoOwner(sys.sessions) && IsEnded(sys, s)
    ensures IsEnded(Next(cfg, sys, step), s) <==> !Revives(sys, step, s)
  {
    hide AfterPass, AfterCreate, AfterPlace, AfterLoad, AfterTurn, AfterLease, AfterReply, AfterIngest, SomeWorkerHealthy;
    match step
    case RunOnce(now) => PassKeepsEnded(cfg, sys, now, s);
    case Create(id, details, now) => CreateKeepsEnded(cfg, sys, id, details, now, s);
    case PromptPlace(_, _, _, _, _, _) => PlaceKeepsEndedIff(cfg, sys, step, s);
    case End(id, now) =>
    case Register(_, _) => WorkerStepsAdvance(cfg, sys, step);
    case Heartbeat(_, _, _, _) => WorkerStepsAdvance(cfg, sys, step);
    case SetStatus(_, _) => WorkerStepsAdvance(cfg, sys, step);
    case _ => TurnStepsAdvance(cfg, sys, step);
  }

  /** A revived session is assigned to a healthy worker under its next epoch. */
  lemma RevivedUnderNextEpoch(cfg: Config, sys: System, step: Step, s: SessionId)
    requires sys.Sound() && EndedHaveNoOwner(sys.sessions) && IsEnded(sys, s) && Revives(sys, step, s)
    ensures var after := Next(cfg, sys, step);
      && s in after.sessions.rows && after.sessions.rows[s].status.Assigned?
      && after.sessions.rows[s].leaseEpoch == sys.sessions.rows[s].leaseEpoch + 1
      && OwnerHealthy(after.workers, after.sessions.rows[s])
  {
    PromptedEnded(sys.workers, sys.sessions, cfg, s, step.now);
    hide Prompted, SomeWorkerHealthy, EndedHaveNoOwner;
  }

  // ---- runs ----

  ghost predicate EndedThroughout(cfg: Config, sys: System, steps: seq<Step>, s: SessionId)
    requires sys.Sound()
  {
    forall n :: 0 <= n <= |steps| ==> IsEnded(Exec(cfg, sys, steps[..n]), s)
  }

  ghost predicate NoneRevives(cfg: Config, sys: System, steps: seq<Step>, s: SessionId)
    requires sys.Sound()
  {
    forall n :: 0 <= n < |steps| ==> !Revives(Exec(cfg, sys, steps[..n]), steps[n], s)
  }

  lemma RunSnoc(cfg: Config, sys: System, steps: seq<Step>, s: SessionId)
    requires sys.Sound() && steps != []
    ensures var front := steps[..|steps| - 1];
      && (EndedThroughout(cfg, sys, steps, s)
          <==> EndedThroughout(cfg, sys, front, s) && IsEnded(Exec(cfg, sys, steps), s))
      && (NoneRevives(cfg, sys, steps, s)
          <==> NoneRevives(cfg, sys, front, s) && !Revives(Exec(cfg, sys, front), steps[|steps| - 1], s))
  {
    hide Exec, IsEnded, Revives;
    var front := steps[..|steps| - 1];
    assert steps[..|steps|] == steps && front[..|front|] == front;
    assert forall n :: 0 <= n < |front| ==> front[n] == steps[n];
    assert forall n :: 0 <= n <= |front| ==> front[..n] == steps[..n];
  }

  lemma {:induction false} RunKeepsNoOwner(cfg: Config, sys: System, steps: seq<Step>)
    requires sys.Sound() && EndedHaveNoOwner(sys.sessions)
    ensures EndedHaveNoOwner(Exec(cfg, sys, steps).sessions)
  {
    hide Next, EndedHaveNoOwner;
    if steps != [] {
      RunKeepsNoOwner(cfg, sys, steps[..|steps| - 1]);
      StepKeepsNoOwner(cfg, Exec(cfg, sys, steps[..|steps| - 1]), steps[|steps| - 1]);
    }
  }

  lemma NothingHappens(cfg: Config, sys: System, s: SessionId)
    requires sys.Sound() && IsEnded(sys, s)
    ensures EndedThroughout(cfg, sys, [], s) && NoneRevives(cfg, sys, [], s)
  {}

  lemma {:induction false} RunKeepsEndedIff(cfg: Config, sys: System, steps: seq<Step>, s: SessionId)
    requires sys.Sound() && EndedHaveNoOwner(sys.sessions) && IsEnded(sys, s)
    ensures EndedThroughout(cfg, sys, steps, s) <==> NoneRevives(cfg, sys, steps, s)
  {
    hide Next, IsEnded, Revives, EndedThroughout, NoneRevives, EndedHaveNoOwner;
    if steps == [] {
      NothingHappens(cfg, sys, s);
    } else {
      var front := steps[..|steps| - 1];
      var mid := Exec(cfg, sys, front);
      RunSnoc(cfg, sys, steps, s);
      RunKeepsEndedIff(cfg, sys, front, s);
      RunKeepsNoOwner(cfg, sys, front);
      if EndedThroughout(cfg, sys, front, s) {
        EndedAtEnd(cfg, sys, front, s);
        StepKeepsEndedIff(cfg, mid, steps[|steps| - 1], s);
      }
    }
  }

  lemma EndedAtEnd(cfg: Config, sys: System, steps: seq<Step>, s: SessionId)
    requires sys.Sound() && EndedThroughout(cfg, sys, steps, s)
    ensures IsEnded(Exec(cfg, sys, steps), s)
  {
    hide Exec, IsEnded;
    assert steps[..|steps|] == steps;
  }

  /** From every reachable state: an ended session stays ended throughout a continuation if and only if
      no step of it is a prompt on the session while some worker is healthy. */
  lemma EndedStaysEndedIff(cfg: Config, run: seq<Step>, steps: seq<Step>, s: SessionId)
    requires INIT.Sound() && IsEnded(Exec(cfg, INIT, run), s)
    ensures var sys := Exec(cfg, INIT, run);
      EndedThroughout(cfg, sys, steps, s) <==> NoneRevives(cfg, sys, steps, s)
  {
    hide Exec, EndedThroughout, NoneRevives;
    EndedNeverOwned(cfg, run);
    RunKeepsEndedIff(cfg, Exec(cfg, INIT, run), steps, s);
  }
}
