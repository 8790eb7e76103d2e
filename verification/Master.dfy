/** The request handlers of the master over the shared database. A handler that does not wait for
    a worker is one call here; the reply of a worker to a dispatched prompt is a call of its own. */
module Master {
  import opened Prelude
  import opened Records
  import opened Placement
  import opened WorkerRegistry
  import opened SessionService
  import opened TurnService
  import opened EventJournal
  import opened Ingest
  import opened EventStream
  import opened Protocol
  import opened TurnSafety
  import Admitting = Admission
  import Text

  /** What the prompt handler has decided when it answers or calls the worker. */
  datatype Reply =
    | Repeated(turn: TurnId)
    | Dispatch(turn: TurnId, worker: WorkerId, leaseEpoch: int)

  /** Who sends a request. */
  datatype Caller = Caller(isUser: bool, sub: UserId)

  /** The check before every request on a session: it exists, and a user only reaches his own. */
  function Refusal(sessions: Sessions, caller: Caller, s: SessionId): Option<ServiceError> {
    if s !in sessions.rows then Some(SessionNotFound)
    else if caller.isUser && sessions.rows[s].userId != caller.sub then Some(Forbidden)
    else None
  }

  /** Place, load, create and lease with no other call in between. */
  function Prompt(cfg: Config, sys: System, s: SessionId, userId: UserId, content: string, key: Option<string>,
                  t: TurnId, generated: string, now: int): System
    requires sys.Sound()
  {
    AfterLease(Admitting.AdmitAtOnce(cfg, sys, 0, s, userId, content, key, t, generated, now), 0, now)
  }

  function PromptSteps(s: SessionId, userId: UserId, content: string, key: Option<string>, t: TurnId,
                       generated: string, now: int): seq<Step>
  {
    [PromptPlace(0, s, userId, content, key, now), PromptLoad(0), PromptCreate(0, t, generated, now),
     PromptLease(0, now)]
  }

  /** The handler is a run of the protocol, so what holds over every run holds of it. */
  lemma PromptIsARun(cfg: Config, sys: System, s: SessionId, userId: UserId, content: string, key: Option<string>,
                     t: TurnId, generated: string, now: int)
    requires sys.Sound()
    ensures Prompt(cfg, sys, s, userId, content, key, t, generated, now)
         == Exec(cfg, sys, PromptSteps(s, userId, content, key, t, generated, now))
  {
    hide AfterPlace, AfterLoad, AfterTurn, AfterLease, Exec;
    var place, create := PromptPlace(0, s, userId, content, key, now), PromptCreate(0, t, generated, now);
    ExecSnoc(cfg, sys, [], place);
    ExecSnoc(cfg, sys, [place], PromptLoad(0));
    ExecSnoc(cfg, sys, [place, PromptLoad(0)], create);
    ExecSnoc(cfg, sys, [place, PromptLoad(0), create], PromptLease(0, now));
    ExecNothing(cfg, sys);
    assert [] + [place] == [place];
    assert [place] + [PromptLoad(0)] == [place, PromptLoad(0)];
    assert [place, PromptLoad(0)] + [create] == [place, PromptLoad(0), create];
    assert [place, PromptLoad(0), create] + [PromptLease(0, now)]
        == PromptSteps(s, userId, content, key, t, generated, now);
  }

  /** A scheduled trigger: a new session, and a prompt on it in the same handler. */
  function Trigger(cfg: Config, sys: System, s: SessionId, details: NewSession, content: string, key: Option<string>,
                   t: TurnId, generated: string, now: int): System
    requires sys.Sound()
  {
    if Inserted(sys.workers, sys.sessions, cfg, s, details, now).Err? then sys else
    CreateAdvances(cfg, sys, s, details, now);
    Prompt(cfg, AfterCreate(cfg, sys, s, details, now), s, details.userId, content, key, t, generated, now)
  }

  /** The trigger is a run of the protocol too. */
  lemma TriggerIsARun(cfg: Config, sys: System, s: SessionId, details: NewSession, content: string,
                      key: Option<string>, t: TurnId, generated: string, now: int)
    requires sys.Sound() && Inserted(sys.workers, sys.sessions, cfg, s, details, now).Ok?
    ensures Trigger(cfg, sys, s, details, content, key, t, generated, now)
         == Exec(cfg, sys, [Create(s, details, now)]
                 + PromptSteps(s, details.userId, content, key, t, generated, now))
  {
    var create := Create(s, details, now);
    var steps := PromptSteps(s, details.userId, content, key, t, generated, now);
    CreateAdvances(cfg, sys, s, details, now);
    PromptIsARun(cfg, AfterCreate(cfg, sys, s, details, now), s, details.userId, content, key, t, generated, now);
    hide Exec, Prompt, PromptSteps, Inserted, AfterCreate;
    ExecOne(cfg, sys, create);
    CreateIsAfterCreate(cfg, sys, s, details, now);
    ExecAppend(cfg, sys, [create], steps);
  }

  lemma CreateIsAfterCreate(cfg: Config, sys: System, s: SessionId, details: NewSession, now: int)
    requires sys.Sound()
    ensures Next(cfg, sys, Create(s, details, now)) == AfterCreate(cfg, sys, s, details, now)
  {
    hide AfterCreate;
  }

  /** A session that did not exist has no turn, so its first turn is always a new one: the trigger does not
      look whether it is. */
  lemma NewSessionHasNoTurn(sys: System, s: SessionId, key: string)
    requires TurnsBounded(sys) && s !in sys.sessions.rows
    ensures !KeyTaken(sys.turns, s, key) && !HasActive(sys.turns, s)
  {}

  /** What the handler does to the tables, case by case. */
  lemma PromptMeaning(cfg: Config, sys: System, s: SessionId, userId: UserId, content: string, key: Option<string>,
                      t: TurnId, generated: string, now: int)
    requires sys.Sound() && sys.requests == map[]
    ensures var after := Prompt(cfg, sys, s, userId, content, key, t, generated, now);
      match Prompted(sys.workers, sys.sessions, cfg, s, now)
      case Err(_) => after == sys
      case Ok((sessions', w)) =>
        && s in sessions'.rows && after.sessions == sessions'
        && (var epoch := sessions'.rows[s].leaseEpoch;
            var admitted := Admitted(sys.turns, Admission(s, userId, content, w, epoch), t, ClientKey(key, generated), now);
            if AdmissionOutcome(sys.turns, s, t, ClientKey(key, generated)).Fresh?
            then HeldBy(admitted, t, w, epoch) && after.turns == LeasedTurn(admitted, t, w, epoch, now)
                 && after.dispatched == sys.dispatched + [t]
            else admitted == sys.turns && after.turns == sys.turns && after.dispatched == sys.dispatched)
  {
    PlacedOwnerIsHealthy(sys.workers, sys.sessions, cfg, s, now);
    PlaceMeaning(cfg, sys, s, userId, content, key, now);
    var placed := AfterPlace(cfg, sys, 0, s, userId, content, key, now);
    hide Prompted, AfterPlace, AfterLoad, AfterTurn, AfterLease, AdmissionOutcome, Admitted, HeldBy, LeasedTurn;
    match Prompted(sys.workers, sys.sessions, cfg, s, now)
    case Err(_) => NothingInFlight(sys, t, generated, now);
    case Ok((sessions', w)) => RestOfPrompt(placed, s, userId, content, key, w, t, generated, now);
  }

  /** The same for a caller that holds the outcome of the placement. */
  lemma PromptAfterPlacing(cfg: Config, sys: System, s: SessionId, userId: UserId, content: string,
                           key: Option<string>, t: TurnId, generated: string, now: int, sessions': Sessions, w: WorkerId)
    requires sys.Sound() && sys.requests == map[]
    requires Prompted(sys.workers, sys.sessions, cfg, s, now) == Ok((sessions', w))
    ensures s in sessions'.rows && OwnerHealthy(sys.workers, sessions'.rows[s])
    ensures CurrentLease(sessions', s, w, sessions'.rows[s].leaseEpoch)
    ensures var after := Prompt(cfg, sys, s, userId, content, key, t, generated, now);
      var epoch := sessions'.rows[s].leaseEpoch;
      && after.sessions == sessions'
      && (if AdmissionOutcome(sys.turns, s, t, ClientKey(key, generated)).Fresh?
          then && after.turns == LeasedTurn(Admitted(sys.turns, Admission(s, userId, content, w, epoch), t,
                                                     ClientKey(key, generated), now), t, w, epoch, now)
               && after.dispatched == sys.dispatched + [t]
          else after.turns == sys.turns && after.dispatched == sys.dispatched)
  {
    PlacedOwnerIsHealthy(sys.workers, sys.sessions, cfg, s, now);
    PromptMeaning(cfg, sys, s, userId, content, key, t, generated, now);
    hide Prompt, Prompted, OwnerHealthy, AdmissionOutcome, Admitted, HeldBy, LeasedTurn, ClientKey;
  }

  lemma PromptRefused(cfg: Config, sys: System, s: SessionId, userId: UserId, content: string,
                      key: Option<string>, t: TurnId, generated: string, now: int)
    requires sys.Sound() && sys.requests == map[]
    requires Prompted(sys.workers, sys.sessions, cfg, s, now).Err?
    ensures Prompt(cfg, sys, s, userId, content, key, t, generated, now) == sys
    ensures var e := Prompted(sys.workers, sys.sessions, cfg, s, now).error;
      e == SessionNotFound || e == NoWorkerAvailable
  {
    PlacedOwnerIsHealthy(sys.workers, sys.sessions, cfg, s, now);
    PromptMeaning(cfg, sys, s, userId, content, key, t, generated, now);
    hide Prompt, Prompted, AdmissionOutcome, Admitted, HeldBy, LeasedTurn, ClientKey;
  }

  lemma PlaceMeaning(cfg: Config, sys: System, s: SessionId, userId: UserId, content: string, key: Option<string>,
                     now: int)
    requires sys.Sound() && sys.requests == map[]
    ensures AfterPlace(cfg, sys, 0, s, userId, content, key, now) ==
      match Prompted(sys.workers, sys.sessions, cfg, s, now)
      case Err(_) => sys
      case Ok((sessions', w)) =>
        sys.(sessions := sessions', requests := map[0 := Placed(s, userId, content, key, w)])
  {
    hide Prompted;
  }

  lemma NothingInFlight(sys: System, t: TurnId, generated: string, now: int)
    requires sys.requests == map[]
    ensures AfterLease(AfterTurn(AfterLoad(sys, 0), 0, t, generated, now), 0, now) == sys
  {}

  lemma RestOfPrompt(sys: System, s: SessionId, userId: UserId, content: string, key: Option<string>, w: WorkerId,
                     t: TurnId, generated: string, now: int)
    requires sys.requests == map[0 := Placed(s, userId, content, key, w)] && s in sys.sessions.rows
    ensures var after := AfterLease(AfterTurn(AfterLoad(sys, 0), 0, t, generated, now), 0, now);
      var epoch := sys.sessions.rows[s].leaseEpoch;
      var admitted := Admitted(sys.turns, Admission(s, userId, content, w, epoch), t, ClientKey(key, generated), now);
      && after.sessions == sys.sessions
      && (if AdmissionOutcome(sys.turns, s, t, ClientKey(key, generated)).Fresh?
          then HeldBy(admitted, t, w, epoch) && after.turns == LeasedTurn(admitted, t, w, epoch, now)
               && after.dispatched == sys.dispatched + [t]
          else admitted == sys.turns && after.turns == sys.turns && after.dispatched == sys.dispatched)
  {
    hide KeyTaken, HasActive, ClientKey;
  }

  lemma LeasedKeepsInvariants(turns: Turns, t: TurnId, w: WorkerId, leaseEpoch: int, now: int)
    requires UniqueKeys(turns) && OneActive(turns)
    ensures var after := LeasedTurn(turns, t, w, leaseEpoch, now);
      && UniqueKeys(after) && OneActive(after)
      && (HeldBy(turns, t, w, leaseEpoch) ==>
            t in after && after[t].status.Leased? && after[t].worker == w && after[t].leaseEpoch == leaseEpoch)
  {
    LeasingEvolves(turns, t, w, leaseEpoch, now);
    hide UniqueKeys, OneActive;
  }

  class Master {
    const db: Database
    const cfg: Config
    const registry: WorkerRegistry
    const sessions: SessionService
    const turns: TurnService
    const events: Journal

    constructor (db: Database, cfg: Config)
      ensures this.db == db && this.cfg == cfg && Wired()
    {
      this.db, this.cfg := db, cfg;
      var workers := new WorkerRegistry(db);
      registry := workers;
      sessions := new SessionService(db, workers, cfg);
      turns := new TurnService(db);
      events := new Journal(db);
    }

    ghost predicate Wired() {
      && registry.db == db && sessions.registry == registry
      && sessions.db == db && sessions.cfg == cfg && turns.db == db && events.db == db
    }

    ghost predicate Valid()
      reads db
    {
      Wired() && db.workers.Valid() && db.sessions.Valid() && UniqueKeys(db.turns) && OneActive(db.turns)
    }

    /** The tables, with no request in flight. */
    ghost function Tables(): System
      reads db
    {
      System(db.workers, db.sessions, db.turns, db.events, map[], [])
    }

    /** The prompt handler up to the call of the worker: it dispatches exactly when it leased a turn
        it created, and then under the lease of the session. */
    method AdmitPrompt(s: SessionId, caller: Caller, content: string, key: Option<string>, t: TurnId,
                       generated: string, now: int) returns (r: Result<Reply, ServiceError>)
      requires Valid()
      modifies db`sessions, db`turns
      ensures Valid()
      ensures var refusal := Refusal(old(db.sessions), caller, s);
        && (refusal.Some? ==> r == Err(refusal.value) && Tables() == old(Tables()))
        && (refusal.None? && Text.Trim(content) == "" ==> r == Err(BadRequest) && Tables() == old(Tables()))
      ensures Refusal(old(db.sessions), caller, s).None? && Text.Trim(content) != "" ==>
        var after := Prompt(cfg, old(Tables()), s, caller.sub, content, key, t, generated, now);
        && db.sessions == after.sessions && db.turns == after.turns
        && after.dispatched == (if r.Ok? && r.value.Dispatch? then [t] else [])
      ensures r.Ok? && r.value.Dispatch? ==>
        && r.value.turn == t && t !in old(db.turns) && t in db.turns && db.turns[t].status.Leased?
        && db.turns[t].worker == r.value.worker && db.turns[t].leaseEpoch == r.value.leaseEpoch
        && CurrentLease(db.sessions, s, r.value.worker, r.value.leaseEpoch)
        && OwnerHealthy(db.workers, db.sessions.rows[s])
      ensures r.Ok? && r.value.Repeated? ==>
        && r.value.turn in db.turns && db.turns[r.value.turn].sessionId == s
        && db.turns[r.value.turn].clientKey == ClientKey(key, generated)
      ensures r != Err(StaleTurnLease)
      ensures r == Err(SessionNotFound) <==> s !in old(db.sessions.rows)
      ensures r == Err(Forbidden) <==>
        s in old(db.sessions.rows) && caller.isUser && old(db.sessions.rows[s].userId) != caller.sub
      ensures var stored := if key.Some? && Text.Trim(key.value) != "" then Text.Trim(key.value) else generated;
        && (r.Ok? ==> r.value.turn in db.turns && db.turns[r.value.turn].sessionId == s
                      && db.turns[r.value.turn].clientKey == stored)
        && (forall u | u in old(db.turns) ::
              old(db.turns[u].sessionId) == s && old(db.turns[u].clientKey) == stored ==>
                && db.turns == old(db.turns)
                && r in {Ok(Repeated(u)), Err(SessionNotFound), Err(Forbidden), Err(BadRequest), Err(NoWorkerAvailable)})
    {
      if Refusal(db.sessions, caller, s).Some? {
        return Err(Refusal(db.sessions, caller, s).value);
      }
      if Text.Trim(content) == "" {
        return Err(BadRequest);
      }
      hide Prompt, OwnerHealthy, CurrentLease, UniqueKeys, OneActive, ClientKey;
      r := AdmitOwned(s, caller.sub, content, key, t, generated, now);
    }

    /** The prompt once access is granted: place, load, create and lease. */
    method AdmitOwned(s: SessionId, userId: UserId, content: string, key: Option<string>, t: TurnId,
                      generated: string, now: int) returns (r: Result<Reply, ServiceError>)
      requires Valid() && s in db.sessions.rows
      modifies db`sessions, db`turns
      ensures Valid()
      ensures var after := Prompt(cfg, old(Tables()), s, userId, content, key, t, generated, now);
        && db.sessions == after.sessions && db.turns == after.turns
        && after.dispatched == (if r.Ok? && r.value.Dispatch? then [t] else [])
      ensures r.Ok? && r.value.Dispatch? ==>
        && r.value.turn == t && t !in old(db.turns) && t in db.turns && db.turns[t].status.Leased?
        && db.turns[t].worker == r.value.worker && db.turns[t].leaseEpoch == r.value.leaseEpoch
        && CurrentLease(db.sessions, s, r.value.worker, r.value.leaseEpoch)
        && OwnerHealthy(db.workers, db.sessions.rows[s])
      ensures r.Ok? && r.value.Repeated? ==>
        && r.value.turn in db.turns && db.turns[r.value.turn].sessionId == s
        && db.turns[r.value.turn].clientKey == ClientKey(key, generated)
      ensures r.Err? ==> r.error in {NoWorkerAvailable, ActiveTurn, DuplicateId}
      ensures var stored := if key.Some? && Text.Trim(key.value) != "" then Text.Trim(key.value) else generated;
        && (r.Ok? ==> r.value.turn in db.turns && db.turns[r.value.turn].sessionId == s
                      && db.turns[r.value.turn].clientKey == stored)
        && (forall u | u in old(db.turns) ::
              old(db.turns[u].sessionId) == s && old(db.turns[u].clientKey) == stored ==>
                db.turns == old(db.turns) && (r == Ok(Repeated(u)) || r == Err(NoWorkerAvailable)))
    {
      ghost var before := Tables();
      hide Prompt, Prompted, OwnerHealthy, CurrentLease, UniqueKeys, OneActive, KeyTaken, HasActive, ClientKey,
           LeasedTurn, Admitted, NewTurn, HeldBy, AdmissionOutcome;
      var worker := sessions.WorkerForPrompt(s, now);
      if worker.Err? {
        PromptRefused(cfg, before, s, userId, content, key, t, generated, now);
        return Err(worker.error);
      }
      PromptAfterPlacing(cfg, before, s, userId, content, key, t, generated, now, db.sessions, worker.value);
      var epoch := db.sessions.rows[s].leaseEpoch;
      r := CreateAndLease(Admission(s, userId, content, worker.value, epoch), key, t, generated, now);
    }

    /** Creates the turn and leases it at once; a repeated key answers with the turn it has. */
    method CreateAndLease(input: Admission, key: Option<string>, t: TurnId, generated: string, now: int)
      returns (r: Result<Reply, ServiceError>)
      requires Valid()
      modifies db`turns
      ensures Valid() && r != Err(StaleTurnLease)
      ensures var admitted := Admitted(old(db.turns), input, t, ClientKey(key, generated), now);
        match AdmissionOutcome(old(db.turns), input.sessionId, t, ClientKey(key, generated))
        case Fresh =>
          && r == Ok(Dispatch(t, input.worker, input.leaseEpoch))
          && db.turns == LeasedTurn(admitted, t, input.worker, input.leaseEpoch, now)
          && t !in old(db.turns) && t in db.turns && db.turns[t].status.Leased?
          && db.turns[t].worker == input.worker && db.turns[t].leaseEpoch == input.leaseEpoch
        case Existing =>
          && r.Ok? && r.value.Repeated? && db.turns == old(db.turns)
          && r.value.turn in db.turns && db.turns[r.value.turn].sessionId == input.sessionId
          && db.turns[r.value.turn].clientKey == ClientKey(key, generated)
        case Refused(e) => r == Err(e) && db.turns == old(db.turns)
      ensures var stored := if key.Some? && Text.Trim(key.value) != "" then Text.Trim(key.value) else generated;
        && (r.Ok? ==> r.value.turn in db.turns && db.turns[r.value.turn].sessionId == input.sessionId
                      && db.turns[r.value.turn].clientKey == stored)
        && (forall u | u in old(db.turns) ::
              old(db.turns[u].sessionId) == input.sessionId && old(db.turns[u].clientKey) == stored
              ==> r == Ok(Repeated(u)) && db.turns == old(db.turns))
      ensures r.Err? ==> r.error in {ActiveTurn, DuplicateId}
    {
      hide UniqueKeys, OneActive, KeyTaken, HasActive, ClientKey, LeasedTurn;
      var admitted := turns.CreateOrGet(input, key, t, generated, now);
      if admitted.Err? {
        return Err(admitted.error);
      }
      if !admitted.value.1 {
        return Ok(Repeated(admitted.value.0));
      }
      LeasedKeepsInvariants(db.turns, t, input.worker, input.leaseEpoch, now);
      var ok := turns.Lease(t, input.worker, input.leaseEpoch, now);
      if !ok {
        return Err(StaleTurnLease);
      }
      r := Ok(Dispatch(t, input.worker, input.leaseEpoch));
    }

    /** The worker's answer to a dispatched prompt: a refusal fails the turn, under its own lease. */
    method WorkerAnswered(t: TurnId, w: WorkerId, leaseEpoch: int, accepted: bool, message: string, now: int)
      requires Valid()
      modifies db`turns
      ensures Valid()
      ensures db.turns == if accepted then old(db.turns) else FailedTurn(old(db.turns), t, w, leaseEpoch, message, now)
      ensures db.turns ==
        if accepted || t !in old(db.turns) || old(db.turns[t].status) !in {Pending, Leased}
           || old(db.turns[t].worker) != w || old(db.turns[t].leaseEpoch) != leaseEpoch
        then old(db.turns)
        else old(db.turns)[t := old(db.turns[t]).(status := Failed, errorMessage := Some(message), updatedAt := now)]
    {
      FinishingEvolves(db.turns, t, w, leaseEpoch, message, now);
      if !accepted {
        var _ := turns.Fail(t, w, leaseEpoch, message, now);
      }
    }

    /** Stores the event, hands it to the live streams of the session and settles its turn. */
    method IngestWorkerEvent(w: WorkerId, env: Envelope, id: string, now: int)
      returns (r: Result<EventRow, ServiceError>)
      requires Valid()
      modifies db`turns, db`events, events.Listeners(env.sessionId)
      ensures Valid()
      ensures match Ingested(old(db.sessions), old(db.turns), old(db.events), w, env, id, now)
        case Err(e) => r == Err(e) && db.turns == old(db.turns) && db.events == old(db.events)
        case Ok((turns', events')) =>
          && db.turns == turns' && db.events == events'
          && r.Ok? && r.value in events' && r.value.sessionId == env.sessionId && r.value.sourceId == env.sourceId
      ensures r == Err(BadRequest) <==>
        env.sessionId == "" || env.turnId == "" || env.sourceId == [] || env.kind == ""
      ensures r.Ok? ==>
        && env.turnId in old(db.turns) && env.sessionId in db.sessions.rows
        && old(db.turns[env.turnId].sessionId) == env.sessionId
        && old(db.turns[env.turnId].worker) == w && old(db.turns[env.turnId].leaseEpoch) == env.leaseEpoch
        && db.sessions.rows[env.sessionId].owner == Some(w)
        && db.sessions.rows[env.sessionId].leaseEpoch == env.leaseEpoch
        && db.turns ==
             if old(db.turns[env.turnId].status) !in {Pending, Leased} then old(db.turns)
             else if env.kind == "session.idle" then
               old(db.turns)[env.turnId := old(db.turns[env.turnId]).(
                 status := Completed, updatedAt := now, completedAt := Some(now))]
             else if env.kind == "worker.execution.error" then
               old(db.turns)[env.turnId := old(db.turns[env.turnId]).(
                 status := Failed, updatedAt := now,
                 errorMessage := Some(if env.data.message.Some? then env.data.message.value
                                      else "worker execution failed"))]
             else old(db.turns)
      ensures r.Ok? && db.events != old(db.events) ==>
        && db.events == old(db.events) + [r.value] && env.sessionId in db.sessions.rows
        && r.value == EventRow(id, env.sessionId, db.sessions.rows[env.sessionId].tenantId, env.turnId, w,
                               env.leaseEpoch, r.value.seqNo, env.sourceId, env.kind, env.data, now)
      ensures forall l :: l in events.Listeners(env.sessionId) ==>
        l.output == if |db.events| == |old(db.events)| then old(l.output)
                    else Sent(old(l.output), db.events[|old(db.events)|])
    {
      if !Complete(env) {
        return Err(BadRequest);
      }
      if !LeaseHolds(db.sessions, db.turns, w, env) {
        return Err(StaleLease);
      }
      hide Appended, LeaseHolds, Complete, UniqueKeys, OneActive, Sent, TurnsAfter;
      var stored := events.Append(EventOf(db.sessions, w, env), id, now);
      if stored.Err? {
        return Err(stored.error);
      }
      SettleTurn(w, env, now);
      r := Ok(stored.value);
    }

    /** What a final event does to its turn. */
    method SettleTurn(w: WorkerId, env: Envelope, now: int)
      requires Valid()
      modifies db`turns
      ensures Valid() && db.turns == TurnsAfter(old(db.turns), w, env, now)
      ensures db.turns ==
        if env.turnId !in old(db.turns) || old(db.turns[env.turnId].status) !in {Pending, Leased}
           || old(db.turns[env.turnId].worker) != w || old(db.turns[env.turnId].leaseEpoch) != env.leaseEpoch
        then old(db.turns)
        else if env.kind == "session.idle" then
          old(db.turns)[env.turnId := old(db.turns[env.turnId]).(
            status := Completed, updatedAt := now, completedAt := Some(now))]
        else if env.kind == "worker.execution.error" then
          old(db.turns)[env.turnId := old(db.turns[env.turnId]).(
            status := Failed, updatedAt := now,
            errorMessage := Some(if env.data.message.Some? then env.data.message.value else "worker execution failed"))]
        else old(db.turns)
    {
      FinishingEvolves(db.turns, env.turnId, w, env.leaseEpoch, env.data.message.GetOr(DEFAULT_FAILURE), now);
      hide UniqueKeys, OneActive, CompletedTurn, FailedTurn;
      if env.kind == IDLE {
        var _ := turns.Complete(env.turnId, w, env.leaseEpoch, now);
      }
      if env.kind == EXECUTION_ERROR {
        var message := if env.data.message.Some? then env.data.message.value else DEFAULT_FAILURE;
        var _ := turns.Fail(env.turnId, w, env.leaseEpoch, message, now);
      }
    }

    method End(s: SessionId, caller: Caller, now: int) returns (r: Result<(), ServiceError>)
      requires Valid()
      modifies db`sessions
      ensures Valid()
      ensures var refusal := Refusal(old(db.sessions), caller, s);
        if refusal.Some? then r == Err(refusal.value) && db.sessions == old(db.sessions)
        else r == Ok(()) && db.sessions == EndedAt(old(db.sessions), s, now)
      ensures r == Err(SessionNotFound) <==> s !in old(db.sessions.rows)
      ensures r == Err(Forbidden) <==>
        s in old(db.sessions.rows) && caller.isUser && old(db.sessions.rows[s].userId) != caller.sub
      ensures r.Err? ==> r.error in {SessionNotFound, Forbidden}
      ensures db.sessions.rows == if r.Err? then old(db.sessions.rows)
        else old(db.sessions.rows)[s := old(db.sessions.rows[s]).(status := Ended, endedAt := Some(now),
                                                                 updatedAt := now, owner := None)]
    {
      if Refusal(db.sessions, caller, s).Some? {
        return Err(Refusal(db.sessions, caller, s).value);
      }
      sessions.End(s, now);
      r := Ok(());
    }

    /** The scheduled trigger up to the call of the worker. */
    method TriggerSchedule(s: SessionId, details: NewSession, taskName: string, content: string, t: TurnId,
                           key: string, generated: string, now: int) returns (r: Result<Reply, ServiceError>)
      requires Valid() && TurnsBounded(Tables())
      modifies db`sessions, db`turns
      ensures Valid()
      ensures Text.Trim(taskName) == "" || Text.Trim(content) == "" ==> r == Err(BadRequest) && Tables() == old(Tables())
      ensures Text.Trim(taskName) != "" && Text.Trim(content) != "" ==>
        var after := Trigger(cfg, old(Tables()), s, details, Text.Trim(content), Some(key), t, generated, now);
        && db.sessions == after.sessions && db.turns == after.turns
        && after.dispatched == (if r.Ok? then [t] else [])
      ensures r.Ok? ==>
        && r.value.Dispatch? && r.value.turn == t && s !in old(db.sessions.rows) && t !in old(db.turns)
        && CurrentLease(db.sessions, s, r.value.worker, r.value.leaseEpoch)
    {
      if Text.Trim(taskName) == "" || Text.Trim(content) == "" {
        return Err(BadRequest);
      }
      hide Trigger, CurrentLease, UniqueKeys, OneActive;
      r := CreateAndPrompt(s, details, Text.Trim(content), key, t, generated, now);
    }

    /** The trigger once its input is checked. */
    method CreateAndPrompt(s: SessionId, details: NewSession, content: string, key: string, t: TurnId,
                           generated: string, now: int) returns (r: Result<Reply, ServiceError>)
      requires Valid() && TurnsBounded(Tables())
      modifies db`sessions, db`turns
      ensures Valid()
      ensures var after := Trigger(cfg, old(Tables()), s, details, content, Some(key), t, generated, now);
        && db.sessions == after.sessions && db.turns == after.turns
        && after.dispatched == (if r.Ok? then [t] else [])
      ensures r.Ok? ==>
        && r.value.Dispatch? && r.value.turn == t && s !in old(db.sessions.rows) && t !in old(db.turns)
        && CurrentLease(db.sessions, s, r.value.worker, r.value.leaseEpoch)
    {
      hide Inserted, Trigger, Prompt, KeyTaken, HasActive, ClientKey, UniqueKeys, OneActive, CurrentLease;
      TriggerMeaning(cfg, Tables(), s, details, content, Some(key), t, generated, now);
      var created := sessions.Create(s, details, now);
      if created.Err? {
        return Err(created.error);
      }
      r := PromptNew(s, details.userId, content, key, t, generated, now);
    }

    /** The prompt on the new session; it leases the turn without asking whether it was created. */
    method PromptNew(s: SessionId, userId: UserId, content: string, key: string, t: TurnId, generated: string, now: int)
      returns (r: Result<Reply, ServiceError>)
      requires Valid() && !HasActive(db.turns, s) && !KeyTaken(db.turns, s, ClientKey(Some(key), generated))
      modifies db`sessions, db`turns
      ensures Valid()
      ensures var after := Prompt(cfg, old(Tables()), s, userId, content, Some(key), t, generated, now);
        && db.sessions == after.sessions && db.turns == after.turns
        && after.dispatched == (if r.Ok? then [t] else [])
      ensures r.Ok? ==>
        && r.value.Dispatch? && r.value.turn == t && t !in old(db.turns)
        && CurrentLease(db.sessions, s, r.value.worker, r.value.leaseEpoch)
    {
      ghost var before := Tables();
      hide Prompt, Prompted, OwnerHealthy, CurrentLease, UniqueKeys, OneActive, KeyTaken, HasActive, ClientKey,
           LeasedTurn, Admitted, NewTurn, HeldBy, AdmissionOutcome;
      var worker := sessions.WorkerForPrompt(s, now);
      if worker.Err? {
        PromptRefused(cfg, before, s, userId, content, Some(key), t, generated, now);
        return Err(worker.error);
      }
      PromptAfterPlacing(cfg, before, s, userId, content, Some(key), t, generated, now, db.sessions, worker.value);
      var epoch := db.sessions.rows[s].leaseEpoch;
      r := LeaseNew(Admission(s, userId, content, worker.value, epoch), key, t, generated, now);
    }

    method LeaseNew(input: Admission, key: string, t: TurnId, generated: string, now: int)
      returns (r: Result<Reply, ServiceError>)
      requires Valid() && !KeyTaken(db.turns, input.sessionId, ClientKey(Some(key), generated))
      modifies db`turns
      ensures Valid()
      ensures var admitted := Admitted(old(db.turns), input, t, ClientKey(Some(key), generated), now);
        match AdmissionOutcome(old(db.turns), input.sessionId, t, ClientKey(Some(key), generated))
        case Fresh =>
          && r == Ok(Dispatch(t, input.worker, input.leaseEpoch)) && t !in old(db.turns)
          && db.turns == LeasedTurn(admitted, t, input.worker, input.leaseEpoch, now)
        case _ => r.Err? && db.turns == old(db.turns)
    {
      hide UniqueKeys, OneActive, KeyTaken, HasActive, ClientKey, LeasedTurn;
      var admitted := turns.CreateOrGet(input, Some(key), t, generated, now);
      if admitted.Err? {
        return Err(admitted.error);
      }
      var turn := admitted.value.0;
      LeasedKeepsInvariants(db.turns, turn, input.worker, input.leaseEpoch, now);
      var ok := turns.Lease(turn, input.worker, input.leaseEpoch, now);
      if !ok {
        return Err(StaleTurnLease);
      }
      r := Ok(Dispatch(turn, input.worker, input.leaseEpoch));
    }

    /** Opens the stream of a session: it is subscribed before the rows to replay are read, in one go. */
    method OpenStream(s: SessionId, caller: Caller, after: After)
      returns (r: Result<(SseStream, seq<EventRow>), ServiceError>)
      requires Valid()
      modifies events
      ensures var refusal := Refusal(db.sessions, caller, s);
        match r
        case Err(e) => refusal == Some(e) && events.subscribers == old(events.subscribers)
        case Ok((stream, rows)) =>
          && refusal.None? && fresh(stream) && stream.output == NOTHING_SENT
          && events.subscribers == old(events.subscribers)[s := old(events.Listeners(s)) + {stream}]
          && rows == Replay(db.events, s, after)
      ensures r == Err(SessionNotFound) <==> s !in db.sessions.rows
      ensures r == Err(Forbidden) <==>
        s in db.sessions.rows && caller.isUser && db.sessions.rows[s].userId != caller.sub
      ensures r.Err? ==> r.error in {SessionNotFound, Forbidden}
    {
      if Refusal(db.sessions, caller, s).Some? {
        return Err(Refusal(db.sessions, caller, s).value);
      }
      hide Replay;
      var stream := new SseStream();
      events.Subscribe(s, stream);
      var rows := events.Read(s, after);
      r := Ok((stream, rows));
    }

    /** Finds the turn to control: the active one of the session, when it is held by the healthy
        owner under the current lease. */
    method Control(s: SessionId, caller: Caller) returns (r: Result<Reply, ServiceError>)
      requires Valid()
      ensures match r
        case Err(e) =>
          var refusal := Refusal(db.sessions, caller, s);
          if refusal.Some? then e == refusal.value
          else if !OwnerHealthy(db.workers, db.sessions.rows[s]) then e == WorkerUnavailable
          else e == StaleTurnLease
        case Ok(reply) =>
          && Refusal(db.sessions, caller, s).None? && OwnerHealthy(db.workers, db.sessions.rows[s])
          && reply.Dispatch? && Controllable(db.sessions, db.turns, s, reply.turn)
          && db.sessions.rows[s].owner == Some(reply.worker) && db.sessions.rows[s].leaseEpoch == reply.leaseEpoch
      ensures r == Err(StaleTurnLease) ==> forall t :: !Controllable(db.sessions, db.turns, s, t)
      ensures r == Err(SessionNotFound) <==> s !in db.sessions.rows
      ensures r == Err(Forbidden) <==>
        s in db.sessions.rows && caller.isUser && db.sessions.rows[s].userId != caller.sub
      ensures r.Ok? ==>
        var session, turn := db.sessions.rows[s], r.value.turn;
        && turn in db.turns && db.turns[turn].sessionId == s && db.turns[turn].status in {Pending, Leased}
        && db.turns[turn].worker == r.value.worker && db.turns[turn].leaseEpoch == r.value.leaseEpoch
        && session.owner == Some(r.value.worker) && session.leaseEpoch == r.value.leaseEpoch
        && r.value.worker in db.workers.rows && db.workers.rows[r.value.worker].status == Healthy
    {
      if Refusal(db.sessions, caller, s).Some? {
        return Err(Refusal(db.sessions, caller, s).value);
      }
      var owner := db.sessions.rows[s].owner;
      if owner.None? || owner.value !in db.workers.rows || db.workers.rows[owner.value].status != Healthy {
        return Err(WorkerUnavailable);
      }
      var turn := turns.Active(s);
      if turn.None? {
        return Err(StaleTurnLease);
      }
      var row := db.turns[turn.value];
      if row.worker != owner.value || !CurrentLease(db.sessions, s, owner.value, row.leaseEpoch) {
        return Err(StaleTurnLease);
      }
      r := Ok(Dispatch(turn.value, owner.value, row.leaseEpoch));
    }
  }

  lemma TriggerMeaning(cfg: Config, sys: System, s: SessionId, details: NewSession, content: string,
                       key: Option<string>, t: TurnId, generated: string, now: int)
    requires sys.Sound() && TurnsBounded(sys)
    ensures var after := Trigger(cfg, sys, s, details, content, key, t, generated, now);
      match Inserted(sys.workers, sys.sessions, cfg, s, details, now)
      case Err(_) => after == sys
      case Ok(sessions') =>
        && s !in sys.sessions.rows && sys.(sessions := sessions').Sound()
        && after == Prompt(cfg, sys.(sessions := sessions'), s, details.userId, content, key, t, generated, now)
        && !KeyTaken(sys.turns, s, ClientKey(key, generated)) && !HasActive(sys.turns, s)
  {
    CreateAdvances(cfg, sys, s, details, now);
    if Inserted(sys.workers, sys.sessions, cfg, s, details, now).Ok? {
      InsertedIsNew(sys.workers, sys.sessions, cfg, s, details, now);
      NewSessionHasNoTurn(sys, s, ClientKey(key, generated));
    }
    hide Prompt, Inserted, KeyTaken, HasActive, ClientKey;
  }

  lemma InsertedIsNew(workers: Workers, sessions: Sessions, cfg: Config, s: SessionId, details: NewSession, now: int)
    requires workers.Valid() && Inserted(workers, sessions, cfg, s, details, now).Ok?
    ensures s !in sessions.rows
  {
    hide Place, OpenCount;
  }

  /** An unfinished turn of the session under its current lease. */
  predicate Controllable(sessions: Sessions, turns: Turns, s: SessionId, t: TurnId) {
    t in turns && turns[t].sessionId == s && turns[t].Active()
    && CurrentLease(sessions, s, turns[t].worker, turns[t].leaseEpoch)
  }

  lemma PlacedOwnerIsHealthy(workers: Workers, sessions: Sessions, cfg: Config, s: SessionId, now: int)
    requires workers.Valid() && sessions.Valid()
    ensures match Prompted(workers, sessions, cfg, s, now)
      case Err(e) => e == SessionNotFound || e == NoWorkerAvailable
      case Ok((sessions', w)) =>
        s in sessions'.rows && sessions'.rows[s].owner == Some(w) && OwnerHealthy(workers, sessions'.rows[s])
  {
    if s in sessions.rows {
      PlaceIsEligible(workers, sessions.rows[s].userId, sessions.rows[s].owner, cfg.placementCandidates);
      hide Place;
    }
  }
}
