/** The failover protocol as a state machine.

    One step is one call on the database: each service call, one ingest and one scheduler pass
    are atomic. A prompt is four such calls (place, load, create, lease) followed by the reply of
    the worker, and any other step may come between any two of them. */
module Protocol {
  import opened Prelude
  import opened Sequences
  import opened Records
  import opened Placement
  import opened WorkerRegistry
  import opened SessionService
  import opened TurnService
  import opened EventJournal
  import opened Ingest

  /** Where an unanswered prompt request stands. */
  datatype Request =
    | Placed(session: SessionId, userId: UserId, content: string, clientKey: Option<string>, worker: WorkerId)
    | Loaded(session: SessionId, userId: UserId, content: string, clientKey: Option<string>, worker: WorkerId,
             leaseEpoch: int)
    | Created(turn: TurnId, worker: WorkerId, leaseEpoch: int)
    | Dispatched(turn: TurnId, worker: WorkerId, leaseEpoch: int)

  /** The tables, the requests in flight, and the turns sent to workers so far. */
  datatype System = System(workers: Workers, sessions: Sessions, turns: Turns, events: seq<EventRow>,
                           requests: map<nat, Request>, dispatched: seq<TurnId>)
  {
    ghost predicate Sound() { workers.Valid() && sessions.Valid() }
  }

  const INIT := System(NO_WORKERS, NO_SESSIONS, map[], [], map[], [])

  datatype Step =
    | Register(input: Registration, now: int)
    | Heartbeat(worker: WorkerId, load: WorkerLoad, configVersion: Option<string>, now: int)
    | SetStatus(worker: WorkerId, status: WorkerStatus)
    | RunOnce(now: int)
    | Create(session: SessionId, details: NewSession, now: int)
    | End(session: SessionId, now: int)
    | PromptPlace(request: nat, session: SessionId, userId: UserId, content: string, clientKey: Option<string>,
                  now: int)
    | PromptLoad(request: nat)
    | PromptCreate(request: nat, turn: TurnId, generated: string, now: int)
    | PromptLease(request: nat, now: int)
    | PromptReply(request: nat, ok: bool, message: string, now: int)
    | IngestEvent(worker: WorkerId, env: Envelope, id: string, now: int)
    | Restart

  function AfterPass(cfg: Config, sys: System, now: int): System
    requires sys.Sound()
  {
    var cutoff := now - cfg.heartbeatTimeoutMs;
    var workers' := Swept(sys.workers, cutoff);
    sys.(workers := workers', sessions := Rehomed(workers', sys.sessions, cfg, SweptIds(sys.workers, cutoff), now))
  }

  function AfterCreate(cfg: Config, sys: System, id: SessionId, details: NewSession, now: int): System
    requires sys.Sound()
  {
    match Inserted(sys.workers, sys.sessions, cfg, id, details, now)
    case Err(_) => sys
    case Ok(sessions') => sys.(sessions := sessions')
  }

  function AfterPlace(cfg: Config, sys: System, request: nat, session: SessionId, userId: UserId, content: string,
                      clientKey: Option<string>, now: int): System
    requires sys.Sound()
  {
    if request in sys.requests then sys else
    match Prompted(sys.workers, sys.sessions, cfg, session, now)
    case Err(_) => sys
    case Ok((sessions', worker)) =>
      sys.(sessions := sessions', requests := sys.requests[request := Placed(session, userId, content, clientKey, worker)])
  }

  function AfterLoad(sys: System, request: nat): System {
    if request !in sys.requests || !sys.requests[request].Placed? then sys else
    var r := sys.requests[request];
    if r.session !in sys.sessions.rows then sys.(requests := sys.requests - {request}) else
    sys.(requests := sys.requests[request :=
      Loaded(r.session, r.userId, r.content, r.clientKey, r.worker, sys.sessions.rows[r.session].leaseEpoch)])
  }

  /** A repeated key answers with its turn, an active turn refuses: both end the request here. */
  function AfterTurn(sys: System, request: nat, turn: TurnId, generated: string, now: int): System {
    if request !in sys.requests || !sys.requests[request].Loaded? then sys else
    var r := sys.requests[request];
    var key := ClientKey(r.clientKey, generated);
    var input := Admission(r.session, r.userId, r.content, r.worker, r.leaseEpoch);
    sys.(turns := Admitted(sys.turns, input, turn, key, now),
         requests := if AdmissionOutcome(sys.turns, r.session, turn, key).Fresh?
           then sys.requests[request := Created(turn, r.worker, r.leaseEpoch)] else sys.requests - {request})
  }

  function AfterLease(sys: System, request: nat, now: int): System {
    if request !in sys.requests || !sys.requests[request].Created? then sys else
    var r := sys.requests[request];
    if !HeldBy(sys.turns, r.turn, r.worker, r.leaseEpoch) then sys.(requests := sys.requests - {request}) else
    sys.(turns := LeasedTurn(sys.turns, r.turn, r.worker, r.leaseEpoch, now),
         requests := sys.requests[request := Dispatched(r.turn, r.worker, r.leaseEpoch)],
         dispatched := sys.dispatched + [r.turn])
  }

  function AfterReply(sys: System, request: nat, ok: bool, message: string, now: int): System {
    if request !in sys.requests || !sys.requests[request].Dispatched? then sys else
    var r := sys.requests[request];
    sys.(turns := if ok then sys.turns else FailedTurn(sys.turns, r.turn, r.worker, r.leaseEpoch, message, now),
         requests := sys.requests - {request})
  }

  function AfterIngest(sys: System, worker: WorkerId, env: Envelope, id: string, now: int): System {
    match Ingested(sys.sessions, sys.turns, sys.events, worker, env, id, now)
    case Err(_) => sys
    case Ok((turns', events')) => sys.(turns := turns', events := events')
  }

  function Next(cfg: Config, sys: System, step: Step): System
    requires sys.Sound()
  {
    match step
    case Register(input, now) => sys.(workers := Registered(sys.workers, input, now))
    case Heartbeat(w, load, version, now) => sys.(workers := Beaten(sys.workers, w, load, version, now))
    case SetStatus(w, status) => sys.(workers := WithStatus(sys.workers, w, status))
    case RunOnce(now) => AfterPass(cfg, sys, now)
    case Create(id, details, now) => AfterCreate(cfg, sys, id, details, now)
    case End(id, now) => sys.(sessions := EndedAt(sys.sessions, id, now))
    case PromptPlace(r, s, user, content, key, now) => AfterPlace(cfg, sys, r, s, user, content, key, now)
    case PromptLoad(r) => AfterLoad(sys, r)
    case PromptCreate(r, turn, generated, now) => AfterTurn(sys, r, turn, generated, now)
    case PromptLease(r, now) => AfterLease(sys, r, now)
    case PromptReply(r, ok, message, now) => AfterReply(sys, r, ok, message, now)
    case IngestEvent(w, env, id, now) => AfterIngest(sys, w, env, id, now)
    case Restart => sys.(requests := map[])
  }

  // ---- what one step does to each table ----

  /** The lease order of a session: a later epoch, or the same one with its owner kept or released. */
  predicate LeaseAdvances(before: SessionRow, after: SessionRow) {
    || after.leaseEpoch > before.leaseEpoch
    || (after.leaseEpoch == before.leaseEpoch && (after.owner == before.owner || after.owner.None?))
  }

  ghost predicate SessionsAdvance(before: Sessions, after: Sessions) {
    forall s :: s in before.rows ==> s in after.rows && LeaseAdvances(before.rows[s], after.rows[s])
  }

  lemma PassAdvances(cfg: Config, sys: System, now: int)
    requires sys.Sound()
    ensures AfterPass(cfg, sys, now).Sound()
    ensures SessionsAdvance(sys.sessions, AfterPass(cfg, sys, now).sessions)
  {
    hide Place, Filter;
  }

  lemma PlaceAdvances(cfg: Config, sys: System, request: nat, session: SessionId, userId: UserId, content: string,
                      clientKey: Option<string>, now: int)
    requires sys.Sound()
    ensures var after := AfterPlace(cfg, sys, request, session, userId, content, clientKey, now);
      after.Sound() && SessionsAdvance(sys.sessions, after.sessions)
  {
    hide Place;
  }

  lemma CreateAdvances(cfg: Config, sys: System, id: SessionId, details: NewSession, now: int)
    requires sys.Sound()
    ensures var after := AfterCreate(cfg, sys, id, details, now);
      after.Sound() && SessionsAdvance(sys.sessions, after.sessions)
  {
    hide Place, Filter;
  }

  lemma WorkerStepsAdvance(cfg: Config, sys: System, step: Step)
    requires sys.Sound() && (step.Register? || step.Heartbeat? || step.SetStatus?)
    ensures Next(cfg, sys, step).Sound() && Next(cfg, sys, step).sessions == sys.sessions
  {}

  lemma EndAdvances(sessions: Sessions, id: SessionId, now: int)
    requires sessions.Valid()
    ensures EndedAt(sessions, id, now).Valid() && SessionsAdvance(sessions, EndedAt(sessions, id, now))
  {}

  lemma TurnStepsAdvance(cfg: Config, sys: System, step: Step)
    requires sys.Sound()
    requires step.PromptLoad? || step.PromptCreate? || step.PromptLease? || step.PromptReply?
      || step.IngestEvent? || step.Restart?
    ensures Next(cfg, sys, step).workers == sys.workers && Next(cfg, sys, step).sessions == sys.sessions
  {
    hide Ingested, AdmissionOutcome, Admitted, HeldBy, ClientKey;
  }

  /** Every step keeps the tables sound and advances every lease. */
  lemma StepAdvancesSessions(cfg: Config, sys: System, step: Step)
    requires sys.Sound()
    ensures Next(cfg, sys, step).Sound()
    ensures SessionsAdvance(sys.sessions, Next(cfg, sys, step).sessions)
  {
    hide AfterPass, AfterCreate, AfterPlace, AfterLoad, AfterTurn, AfterLease, AfterReply, AfterIngest, EndedAt;
    match step
    case RunOnce(now) => PassAdvances(cfg, sys, now);
    case Create(id, details, now) => CreateAdvances(cfg, sys, id, details, now);
    case PromptPlace(r, s, user, content, key, now) => PlaceAdvances(cfg, sys, r, s, user, content, key, now);
    case End(id, now) => EndAdvances(sys.sessions, id, now);
    case Register(_, _) => WorkerStepsAdvance(cfg, sys, step);
    case Heartbeat(_, _, _, _) => WorkerStepsAdvance(cfg, sys, step);
    case SetStatus(_, _) => WorkerStepsAdvance(cfg, sys, step);
    case _ => TurnStepsAdvance(cfg, sys, step);
  }

  /** Every step keeps turns unique, at most one active per session, and finished ones finished. */
  lemma StepEvolvesTurns(cfg: Config, sys: System, step: Step)
    requires sys.Sound() && UniqueKeys(sys.turns) && OneActive(sys.turns)
    ensures var after := Next(cfg, sys, step).turns;
      UniqueKeys(after) && OneActive(after) && Evolves(sys.turns, after)
  {
    hide Place, Filter, AfterPass, AfterCreate, AfterPlace, UniqueKeys, OneActive, AdmissionOutcome, Admitted,
         ClientKey, Appended, LeaseHolds, Complete, Evolves;
    EvolvesIsReflexive(sys.turns);
    match step
    case PromptCreate(request, turn, generated, now) =>
      if request in sys.requests && sys.requests[request].Loaded? {
        var r := sys.requests[request];
        AdmissionKeepsInvariants(sys.turns, Admission(r.session, r.userId, r.content, r.worker, r.leaseEpoch),
                                 turn, ClientKey(r.clientKey, generated), now);
      }
    case PromptLease(request, now) =>
      if request in sys.requests && sys.requests[request].Created? {
        LeasingEvolves(sys.turns, sys.requests[request].turn, sys.requests[request].worker,
                       sys.requests[request].leaseEpoch, now);
      }
    case PromptReply(request, ok, message, now) =>
      if request in sys.requests && sys.requests[request].Dispatched? {
        FinishingEvolves(sys.turns, sys.requests[request].turn, sys.requests[request].worker,
                         sys.requests[request].leaseEpoch, message, now);
      }
    case IngestEvent(w, env, id, now) =>
      FinishingEvolves(sys.turns, env.turnId, w, env.leaseEpoch, env.data.message.GetOr(DEFAULT_FAILURE), now);
    case _ =>
      OtherStepsKeepTurns(cfg, sys, step);
  }

  lemma OtherStepsKeepTurns(cfg: Config, sys: System, step: Step)
    requires sys.Sound()
    requires !step.PromptCreate? && !step.PromptLease? && !step.PromptReply? && !step.IngestEvent?
    ensures Next(cfg, sys, step).turns == sys.turns
  {
    hide Place, Filter, Rehomed, Inserted, Prompted;
  }

  lemma LeasingEvolves(turns: Turns, id: TurnId, worker: WorkerId, leaseEpoch: int, now: int)
    requires UniqueKeys(turns) && OneActive(turns)
    ensures var after := LeasedTurn(turns, id, worker, leaseEpoch, now);
      UniqueKeys(after) && OneActive(after) && Evolves(turns, after)
  {
    hide UniqueKeys, OneActive;
    if HeldBy(turns, id, worker, leaseEpoch) {
      SettlingKeepsInvariants(turns, id, turns[id].(status := Leased, updatedAt := now));
    }
  }

  lemma FinishingEvolves(turns: Turns, id: TurnId, worker: WorkerId, leaseEpoch: int, message: string, now: int)
    requires UniqueKeys(turns) && OneActive(turns)
    ensures var done := CompletedTurn(turns, id, worker, leaseEpoch, now);
      UniqueKeys(done) && OneActive(done) && Evolves(turns, done)
    ensures var failed := FailedTurn(turns, id, worker, leaseEpoch, message, now);
      UniqueKeys(failed) && OneActive(failed) && Evolves(turns, failed)
    ensures Evolves(turns, turns)
  {
    hide UniqueKeys, OneActive;
    if HeldBy(turns, id, worker, leaseEpoch) {
      SettlingKeepsInvariants(turns, id, turns[id].(status := Completed, updatedAt := now, completedAt := Some(now)));
      SettlingKeepsInvariants(turns, id, turns[id].(status := Failed, errorMessage := Some(message), updatedAt := now));
    }
  }

  /** The row was written for a turn whose lease was current in `sys`. */
  ghost predicate WrittenUnderLease(sys: System, row: EventRow) {
    && row.turnId in sys.turns
    && sys.turns[row.turnId].sessionId == row.sessionId
    && sys.turns[row.turnId].worker == row.worker
    && sys.turns[row.turnId].leaseEpoch == row.leaseEpoch
    && CurrentLease(sys.sessions, row.sessionId, row.worker, row.leaseEpoch)
  }

  /** The log grows by at most one row, and that was written under a current lease. */
  ghost predicate JournalGrows(sys: System, after: seq<EventRow>) {
    || after == sys.events
    || (|after| == |sys.events| + 1 && after[..|sys.events|] == sys.events
        && WrittenUnderLease(sys, after[|sys.events|]))
  }

  /** A step adds at most one row, written under a current lease. */
  lemma StepExtendsJournal(cfg: Config, sys: System, step: Step)
    requires sys.Sound() && ValidLog(sys.events)
    ensures var after := Next(cfg, sys, step).events;
      ValidLog(after) && JournalGrows(sys, after)
  {
    hide ValidLog;
    match step
    case IngestEvent(w, env, id, now) =>
      if Ingested(sys.sessions, sys.turns, sys.events, w, env, id, now).Ok? {
        hide SessionLog, LatestSeq, Known, IdUsed;
        AppendKeepsLog(sys.events, EventOf(sys.sessions, w, env), id, now);
      }
    case _ =>
      OtherStepsKeepJournal(cfg, sys, step);
  }

  lemma OtherStepsKeepJournal(cfg: Config, sys: System, step: Step)
    requires sys.Sound() && !step.IngestEvent?
    ensures Next(cfg, sys, step).events == sys.events
  {
    hide Place, Filter, Rehomed, Inserted, Prompted, Admitted, AdmissionOutcome, HeldBy;
  }

  // ---- runs ----

  function Exec(cfg: Config, sys: System, steps: seq<Step>): System
    requires sys.Sound()
    ensures Exec(cfg, sys, steps).Sound()
  {
    hide Next;
    if steps == [] then sys else
    var before := Exec(cfg, sys, steps[..|steps| - 1]);
    StepAdvancesSessions(cfg, before, steps[|steps| - 1]);
    Next(cfg, before, steps[|steps| - 1])
  }

  lemma {:induction false} ExecAppend(cfg: Config, sys: System, first: seq<Step>, second: seq<Step>)
    requires sys.Sound()
    ensures Exec(cfg, sys, first + second) == Exec(cfg, Exec(cfg, sys, first), second)
  {
    hide Next;
    if second == [] {
      assert first + second == first;
    } else {
      var front := second[..|second| - 1];
      ExecAppend(cfg, sys, first, front);
      assert (first + second)[..|first + second| - 1] == first + front;
    }
  }

  lemma ExecNothing(cfg: Config, sys: System)
    requires sys.Sound()
    ensures Exec(cfg, sys, []) == sys
  {}

  lemma ExecSnoc(cfg: Config, sys: System, steps: seq<Step>, step: Step)
    requires sys.Sound()
    ensures Exec(cfg, sys, steps + [step]) == Next(cfg, Exec(cfg, sys, steps), step)
  {
    hide Next;
    assert (steps + [step])[..|steps + [step]| - 1] == steps;
  }

  lemma ExecOne(cfg: Config, sys: System, step: Step)
    requires sys.Sound()
    ensures Exec(cfg, sys, [step]) == Next(cfg, sys, step)
  {
    hide Next;
    assert [step][..0] == [];
    assert Exec(cfg, sys, []) == sys;
  }
}
