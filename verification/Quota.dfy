/** The session quota over runs: a creation never goes beyond it, and exactly one kind of step does. */
module Quota {
  import opened Prelude
  import opened Sequences
  import opened Records
  import opened Placement
  import opened WorkerRegistry
  import opened SessionService
  import opened Protocol
  import opened Revival

  /** The sessions of a user that are not ended. */
  function Unended(sessions: Sessions, u: UserId): set<SessionId> {
    set s | s in sessions.rows && sessions.rows[s].userId == u && sessions.rows[s].status != Ended
  }

  predicate Within(cfg: Config, sys: System, u: UserId) {
    |Unended(sys.sessions, u)| <= cfg.maxSessionsPerUser
  }

  /** The step revives an ended session of a user who has as many sessions as the quota allows. */
  ghost predicate RevivesAtLimit(cfg: Config, sys: System, step: Step, u: UserId) {
    && |Unended(sys.sessions, u)| == cfg.maxSessionsPerUser
    && exists s :: IsEnded(sys, s) && sys.sessions.rows[s].userId == u && Revives(sys, step, s)
  }

  // ---- one step ----

  lemma PassKeepsUnended(cfg: Config, sys: System, now: int, u: UserId)
    requires sys.Sound()
    ensures Unended(AfterPass(cfg, sys, now).sessions, u) == Unended(sys.sessions, u)
  {
    hide Place, Filter;
  }

  lemma EndShrinksUnended(sessions: Sessions, id: SessionId, now: int, u: UserId)
    ensures Unended(EndedAt(sessions, id, now), u) == Unended(sessions, u) - {id}
  {}

  lemma FewerAreWithin(before: set<SessionId>, after: set<SessionId>)
    requires after <= before
    ensures |after| <= |before|
  {
    assert before == after + (before - after);
  }

  lemma PutUnended(sessions: Sessions, id: SessionId, row: SessionRow, u: UserId)
    ensures Unended(sessions.Put(id, row), u)
         == if row.userId == u && row.status != Ended then Unended(sessions, u) + {id} else Unended(sessions, u) - {id}
  {}

  lemma UnendedExist(sessions: Sessions, u: UserId, id: SessionId)
    ensures id in Unended(sessions, u) ==> id in sessions.rows
  {}

  lemma InsertedBelowQuota(workers: Workers, sessions: Sessions, cfg: Config, id: SessionId, details: NewSession, now: int)
    requires workers.Valid() && sessions.Valid() && cfg.maxSessionsPerUser > 0
    requires Inserted(workers, sessions, cfg, id, details, now).Ok?
    ensures var after := Inserted(workers, sessions, cfg, id, details, now).value;
      && id !in sessions.rows && id in after.rows && after == sessions.Put(id, after.rows[id])
      && after.rows[id].userId == details.userId && after.rows[id].status != Ended
      && |Unended(sessions, details.userId)| < cfg.maxSessionsPerUser
  {
    OpenCountMeaning(sessions, details.userId);
    hide Place, OpenCount;
    assert Unended(sessions, details.userId) ==
      set s | s in sessions.rows && sessions.rows[s].userId == details.userId && sessions.rows[s].status != Ended;
  }

  /** A creation adds its session to its user, who was below the quota. */
  lemma CreateAddsUnended(cfg: Config, sys: System, id: SessionId, details: NewSession, now: int, u: UserId)
    requires sys.Sound() && cfg.maxSessionsPerUser > 0
    ensures var after := AfterCreate(cfg, sys, id, details, now).sessions;
      || after == sys.sessions
      || (&& id !in sys.sessions.rows
          && Unended(after, u) == (if u == details.userId then Unended(sys.sessions, u) + {id} else Unended(sys.sessions, u))
          && (u == details.userId ==> |Unended(after, u)| <= cfg.maxSessionsPerUser))
  {
    hide Inserted, Unended;
    if Inserted(sys.workers, sys.sessions, cfg, id, details, now).Ok? {
      InsertedBelowQuota(sys.workers, sys.sessions, cfg, id, details, now);
      var after := Inserted(sys.workers, sys.sessions, cfg, id, details, now).value;
      PutUnended(sys.sessions, id, after.rows[id], u);
      UnendedExist(sys.sessions, u, id);
    }
  }

  /** A prompt adds its session exactly when it revives it. */
  lemma PromptAddsUnended(cfg: Config, sys: System, step: Step, u: UserId)
    requires sys.Sound() && EndedHaveNoOwner(sys.sessions) && step.PromptPlace?
    ensures var s, after := step.session, Unended(AfterPlace(cfg, sys, step.request, step.session, step.userId,
                                                             step.content, step.clientKey, step.now).sessions, u);
      after == if IsEnded(sys, s) && sys.sessions.rows[s].userId == u && Revives(sys, step, s)
               then Unended(sys.sessions, u) + {s} else Unended(sys.sessions, u)
  {
    var s := step.session;
    if IsEnded(sys, s) {
      PromptedEnded(sys.workers, sys.sessions, cfg, s, step.now);
      assert s !in Unended(sys.sessions, u);
      forall w { PutUnended(sys.sessions, s, NextLease(sys.sessions.rows[s], Some(w), Assigned, step.now), u); }
    } else {
      PromptKeepsOpen(sys.workers, sys.sessions, cfg, s, step.now, u);
    }
    hide Prompted, SomeWorkerHealthy, EndedHaveNoOwner, Unended;
  }

  lemma PromptKeepsOpen(workers: Workers, sessions: Sessions, cfg: Config, s: SessionId, now: int, u: UserId)
    requires workers.Valid() && !(s in sessions.rows && sessions.rows[s].status.Ended?)
    ensures match Prompted(workers, sessions, cfg, s, now)
      case Err(_) => true
      case Ok((sessions', _)) => Unended(sessions', u) == Unended(sessions, u)
  {
    hide Place;
  }

  lemma PassKeepsQuota(cfg: Config, sys: System, now: int, u: UserId)
    requires sys.Sound()
    ensures Within(cfg, AfterPass(cfg, sys, now), u) <==> Within(cfg, sys, u)
  {
    PassKeepsUnended(cfg, sys, now, u);
    hide Unended;
  }

  lemma CreateKeepsQuota(cfg: Config, sys: System, id: SessionId, details: NewSession, now: int, u: UserId)
    requires sys.Sound() && cfg.maxSessionsPerUser > 0 && Within(cfg, sys, u)
    ensures Within(cfg, AfterCreate(cfg, sys, id, details, now), u)
  {
    CreateAddsUnended(cfg, sys, id, details, now, u);
    hide Unended, AfterCreate;
  }

  lemma PlaceKeepsQuotaIff(cfg: Config, sys: System, step: Step, u: UserId)
    requires sys.Sound() && EndedHaveNoOwner(sys.sessions) && Within(cfg, sys, u) && step.PromptPlace?
    ensures Within(cfg, AfterPlace(cfg, sys, step.request, step.session, step.userId, step.content, step.clientKey,
                                   step.now), u)
       <==> !RevivesAtLimit(cfg, sys, step, u)
  {
    var s := step.session;
    PromptAddsUnended(cfg, sys, step, u);
    EndedAreNotUnended(sys, u, s);
    hide Unended, AfterPlace, IsEnded, SomeWorkerHealthy, EndedHaveNoOwner;
    assert RevivesAtLimit(cfg, sys, step, u) <==>
      |Unended(sys.sessions, u)| == cfg.maxSessionsPerUser
      && IsEnded(sys, s) && sys.sessions.rows[s].userId == u && Revives(sys, step, s);
  }

  lemma EndedAreNotUnended(sys: System, u: UserId, s: SessionId)
    ensures IsEnded(sys, s) ==> s in sys.sessions.rows && s !in Unended(sys.sessions, u)
  {}

  lemma EndKeepsQuota(cfg: Config, sys: System, id: SessionId, now: int, u: UserId)
    requires Within(cfg, sys, u)
    ensures |Unended(EndedAt(sys.sessions, id, now), u)| <= cfg.maxSessionsPerUser
  {
    EndShrinksUnended(sys.sessions, id, now, u);
    FewerAreWithin(Unended(sys.sessions, u), Unended(sys.sessions, u) - {id});
  }

  /** A user within the quota is within it after a step if and only if the step does not revive a session of that
      user at the limit: a prompt does not look at the quota. */
  lemma StepKeepsQuotaIff(cfg: Config, sys: System, step: Step, u: UserId)
    requires sys.Sound() && EndedHaveNoOwner(sys.sessions) && cfg.maxSessionsPerUser > 0 && Within(cfg, sys, u)
    ensures Within(cfg, Next(cfg, sys, step), u) <==> !RevivesAtLimit(cfg, sys, step, u)
  {
    hide AfterPass, AfterCreate, AfterPlace, AfterLoad, AfterTurn, AfterLease, AfterReply, AfterIngest, EndedAt,
         SomeWorkerHealthy, EndedHaveNoOwner, Unended, IsEnded;
    match step
    case RunOnce(now) => PassKeepsQuota(cfg, sys, now, u);
    case Create(id, details, now) => CreateKeepsQuota(cfg, sys, id, details, now, u);
    case PromptPlace(_, _, _, _, _, _) => PlaceKeepsQuotaIff(cfg, sys, step, u);
    case End(id, now) => EndKeepsQuota(cfg, sys, id, now, u);
    case Register(_, _) => WorkerStepsAdvance(cfg, sys, step);
    case Heartbeat(_, _, _, _) => WorkerStepsAdvance(cfg, sys, step);
    case SetStatus(_, _) => WorkerStepsAdvance(cfg, sys, step);
    case _ => TurnStepsAdvance(cfg, sys, step);
  }

  /** In every state, within the quota or beyond it: a creation that succeeds leaves its user within the quota. */
  lemma CreationIsWithin(cfg: Config, sys: System, id: SessionId, details: NewSession, now: int)
    requires sys.Sound() && cfg.maxSessionsPerUser > 0
    ensures var after := Next(cfg, sys, Create(id, details, now));
      after.sessions != sys.sessions ==>
        && Within(cfg, after, details.userId)
        && id !in sys.sessions.rows
        && Unended(after.sessions, details.userId) == Unended(sys.sessions, details.userId) + {id}
  {
    CreateAddsUnended(cfg, sys, id, details, now, details.userId);
    hide AfterCreate, Unended;
  }

  // ---- runs ----

  ghost predicate WithinThroughout(cfg: Config, run: seq<Step>, u: UserId)
    requires INIT.Sound()
  {
    forall n :: 0 <= n <= |run| ==> Within(cfg, Exec(cfg, INIT, run[..n]), u)
  }

  ghost predicate NeverRevivedAtLimit(cfg: Config, run: seq<Step>, u: UserId)
    requires INIT.Sound()
  {
    forall n :: 0 <= n < |run| ==> !RevivesAtLimit(cfg, Exec(cfg, INIT, run[..n]), run[n], u)
  }

  lemma ThroughoutSnoc(cfg: Config, run: seq<Step>, u: UserId)
    requires INIT.Sound() && run != []
    ensures var front := run[..|run| - 1];
      && (WithinThroughout(cfg, run, u) <==> WithinThroughout(cfg, front, u) && Within(cfg, Exec(cfg, INIT, run), u))
      && (NeverRevivedAtLimit(cfg, run, u)
          <==> NeverRevivedAtLimit(cfg, front, u)
               && !RevivesAtLimit(cfg, Exec(cfg, INIT, front), run[|run| - 1], u))
      && (WithinThroughout(cfg, front, u) ==> Within(cfg, Exec(cfg, INIT, front), u))
  {
    hide Exec, Within, RevivesAtLimit;
    var front := run[..|run| - 1];
    assert run[..|run|] == run && front[..|front|] == front && run[..|front|] == front;
    assert forall n :: 0 <= n < |front| ==> front[n] == run[n];
    assert forall n :: 0 <= n <= |front| ==> front[..n] == run[..n];
  }

  /** Over every run: a user stays within the quota throughout if and only if no step revives an ended session of
      that user at the limit. */
  lemma {:induction false} QuotaHoldsIff(cfg: Config, run: seq<Step>, u: UserId)
    requires cfg.maxSessionsPerUser > 0
    ensures INIT.Sound() && (WithinThroughout(cfg, run, u) <==> NeverRevivedAtLimit(cfg, run, u))
  {
    hide Next, Within, RevivesAtLimit, EndedHaveNoOwner, WithinThroughout, NeverRevivedAtLimit;
    if run == [] {
      NobodyYetWithin(cfg, u);
    } else {
      var front := run[..|run| - 1];
      QuotaHoldsIff(cfg, front, u);
      ThroughoutSnoc(cfg, run, u);
      EndedNeverOwned(cfg, front);
      if WithinThroughout(cfg, front, u) {
        StepKeepsQuotaIff(cfg, Exec(cfg, INIT, front), run[|run| - 1], u);
      }
    }
  }

  lemma NobodyYetWithin(cfg: Config, u: UserId)
    requires cfg.maxSessionsPerUser > 0
    ensures INIT.Sound() && WithinThroughout(cfg, [], u) && NeverRevivedAtLimit(cfg, [], u)
  {
    assert Unended(INIT.sessions, u) == {};
  }
}
