/** Whole-run properties of turns: dispatched at most once, finished for good, and exactly when
    an unfinished turn can still end. */
module TurnSafety {
  import opened Prelude
  import opened Sequences
  import opened Records
  import opened SessionService
  import opened TurnService
  import opened EventJournal
  import opened Ingest
  import opened Protocol
  import opened Fencing

  // ---- the requests in flight ----

  /** The request works for this turn. */
  predicate WorksFor(r: Request, t: TurnId) {
    match r
    case Created(turn, _, _) => turn == t
    case Dispatched(turn, _, _) => turn == t
    case _ => false
  }

  /** A request's lease is no later than its session's, and a turn's request carries the turn's own lease. */
  ghost predicate RequestFits(sys: System, r: Request) {
    match r
    case Placed(s, _, _, _, _) => s in sys.sessions.rows
    case Loaded(s, _, _, _, _, epoch) => s in sys.sessions.rows && epoch <= sys.sessions.rows[s].leaseEpoch
    case Created(t, w, epoch) =>
      t in sys.turns && sys.turns[t].worker == w && sys.turns[t].leaseEpoch == epoch && t !in sys.dispatched
    case Dispatched(t, w, epoch) =>
      t in sys.turns && sys.turns[t].worker == w && sys.turns[t].leaseEpoch == epoch && t in sys.dispatched
  }

  ghost predicate RequestsFit(sys: System) {
    forall q :: q in sys.requests ==> RequestFits(sys, sys.requests[q])
  }

  /** No two requests work for the same turn. */
  ghost predicate OneRequestPerTurn(sys: System) {
    forall p, q, t | p in sys.requests && q in sys.requests ::
      WorksFor(sys.requests[p], t) && WorksFor(sys.requests[q], t) ==> p == q
  }

  ghost predicate DispatchedOnce(sys: System) {
    && NoDuplicates(sys.dispatched)
    && (forall i :: 0 <= i < |sys.dispatched| ==> sys.dispatched[i] in sys.turns)
  }

  ghost predicate TurnsBounded(sys: System) {
    forall t :: t in sys.turns ==>
      && sys.turns[t].sessionId in sys.sessions.rows
      && sys.turns[t].leaseEpoch <= sys.sessions.rows[sys.turns[t].sessionId].leaseEpoch
  }

  ghost predicate TurnInvariant(sys: System) {
    && UniqueKeys(sys.turns) && OneActive(sys.turns)
    && RequestsFit(sys) && OneRequestPerTurn(sys) && DispatchedOnce(sys) && TurnsBounded(sys)
  }

  // ---- preservation ----

  /** Steps that leave requests, turns and dispatches alone keep the invariant. */
  lemma OnlySessionsMove(before: System, after: System)
    requires TurnInvariant(before) && SessionsAdvance(before.sessions, after.sessions)
    requires after.turns == before.turns && after.dispatched == before.dispatched
    requires forall q :: q in after.requests ==> q in before.requests && after.requests[q] == before.requests[q]
    ensures TurnInvariant(after)
  {
    forall q | q in after.requests ensures RequestFits(after, after.requests[q]) {
      assert RequestFits(before, before.requests[q]);
    }
  }

  /** Turns may settle as long as they keep their identity. */
  lemma OnlyTurnsSettle(before: System, after: System)
    requires TurnInvariant(before) && after.sessions == before.sessions && after.dispatched == before.dispatched
    requires UniqueKeys(after.turns) && OneActive(after.turns)
    requires Evolves(before.turns, after.turns) && after.turns.Keys == before.turns.Keys
    requires forall q :: q in after.requests ==> q in before.requests && after.requests[q] == before.requests[q]
    ensures TurnInvariant(after)
  {
    forall q | q in after.requests ensures RequestFits(after, after.requests[q]) {
      assert RequestFits(before, before.requests[q]);
    }
  }

  lemma NewRequestKeeps(sys: System, q: nat, r: Request)
    requires TurnInvariant(sys) && q !in sys.requests && r.Placed? && r.session in sys.sessions.rows
    ensures TurnInvariant(sys.(requests := sys.requests[q := r]))
  {
    hide UniqueKeys, OneActive;
    var after := sys.(requests := sys.requests[q := r]);
    forall p | p in after.requests ensures RequestFits(after, after.requests[p]) {
      assert p in sys.requests ==> RequestFits(sys, sys.requests[p]);
    }
  }

  lemma PlaceKeeps(cfg: Config, sys: System, step: Step)
    requires sys.Sound() && TurnInvariant(sys) && step.PromptPlace?
    ensures TurnInvariant(Next(cfg, sys, step))
  {
    hide TurnInvariant, Placement.Place;
    StepAdvancesSessions(cfg, sys, step);
    var after := Next(cfg, sys, step);
    OnlySessionsMove(sys, sys.(sessions := after.sessions));
    if step.request !in sys.requests && step.request in after.requests {
      NewRequestKeeps(sys.(sessions := after.sessions), step.request, after.requests[step.request]);
    }
  }

  lemma LoadKeeps(sys: System, request: nat)
    requires TurnInvariant(sys)
    ensures TurnInvariant(AfterLoad(sys, request))
  {
    hide UniqueKeys, OneActive;
    var after := AfterLoad(sys, request);
    forall q | q in after.requests ensures RequestFits(after, after.requests[q]) {
      assert RequestFits(sys, sys.requests[q]);
    }
  }

  lemma CreateKeeps(sys: System, request: nat, turn: TurnId, generated: string, now: int)
    requires TurnInvariant(sys)
    ensures TurnInvariant(AfterTurn(sys, request, turn, generated, now))
  {
    if request in sys.requests && sys.requests[request].Loaded? {
      var r := sys.requests[request];
      var after := AfterTurn(sys, request, turn, generated, now);
      AdmissionKeepsInvariants(sys.turns, Admission(r.session, r.userId, r.content, r.worker, r.leaseEpoch),
                               turn, ClientKey(r.clientKey, generated), now);
      hide UniqueKeys, OneActive, KeyTaken, HasActive, ClientKey;
      assert RequestFits(sys, r);
      forall q | q in after.requests ensures RequestFits(after, after.requests[q]) {
        assert RequestFits(sys, sys.requests[q]);
      }
      forall q | q in sys.requests ensures WorksFor(sys.requests[q], turn) ==> turn in sys.turns {
        assert RequestFits(sys, sys.requests[q]);
      }
    }
  }

  lemma LeaseKeeps(sys: System, request: nat, now: int)
    requires TurnInvariant(sys)
    ensures TurnInvariant(AfterLease(sys, request, now))
  {
    if request in sys.requests && sys.requests[request].Created? {
      var r := sys.requests[request];
      var after := AfterLease(sys, request, now);
      LeasingEvolves(sys.turns, r.turn, r.worker, r.leaseEpoch, now);
      hide UniqueKeys, OneActive;
      assert RequestFits(sys, r);
      forall q | q in after.requests ensures RequestFits(after, after.requests[q]) {
        assert RequestFits(sys, sys.requests[q]);
        assert q != request ==> !(WorksFor(sys.requests[q], r.turn) && WorksFor(r, r.turn));
      }
    }
  }

  /** The invariant of turns and requests over every run from the initial state. */
  lemma StepKeepsTurnInvariant(cfg: Config, sys: System, step: Step)
    requires sys.Sound() && TurnInvariant(sys)
    ensures TurnInvariant(Next(cfg, sys, step))
  {
    hide TurnInvariant;
    match step
    case PromptPlace(_, _, _, _, _, _) => PlaceKeeps(cfg, sys, step);
    case PromptLoad(r) => LoadKeeps(sys, r);
    case PromptCreate(r, turn, generated, now) => CreateKeeps(sys, r, turn, generated, now);
    case PromptLease(r, now) => LeaseKeeps(sys, r, now);
    case PromptReply(r, ok, message, now) => ReplyKeeps(cfg, sys, step);
    case IngestEvent(_, _, _, _) => IngestKeeps(cfg, sys, step);
    case _ => OtherStepsKeep(cfg, sys, step);
  }

  lemma ReplyKeeps(cfg: Config, sys: System, step: Step)
    requires sys.Sound() && TurnInvariant(sys) && step.PromptReply?
    ensures TurnInvariant(Next(cfg, sys, step))
  {
    StepEvolvesTurns(cfg, sys, step);
    hide UniqueKeys, OneActive;
    OnlyTurnsSettle(sys, Next(cfg, sys, step));
  }

  lemma IngestKeeps(cfg: Config, sys: System, step: Step)
    requires sys.Sound() && TurnInvariant(sys) && step.IngestEvent?
    ensures TurnInvariant(Next(cfg, sys, step))
  {
    InvariantGivesUniqueTurns(sys);
    hide TurnInvariant, Next, UniqueKeys, OneActive, Evolves;
    StepEvolvesTurns(cfg, sys, step);
    IngestMovesTurns(cfg, sys, step);
    OnlyTurnsSettle(sys, Next(cfg, sys, step));
  }

  lemma IngestMovesTurns(cfg: Config, sys: System, step: Step)
    requires sys.Sound() && step.IngestEvent?
    ensures var after := Next(cfg, sys, step);
      && after == sys.(turns := after.turns, events := after.events)
      && after.turns.Keys == sys.turns.Keys
  {
    hide Appended, LeaseHolds, CurrentLease;
  }

  lemma OtherStepsKeep(cfg: Config, sys: System, step: Step)
    requires sys.Sound() && TurnInvariant(sys)
    requires !step.PromptPlace? && !step.PromptLoad? && !step.PromptCreate? && !step.PromptLease?
    requires !step.PromptReply? && !step.IngestEvent?
    ensures TurnInvariant(Next(cfg, sys, step))
  {
    hide TurnInvariant, Rehomed, Inserted;
    StepAdvancesSessions(cfg, sys, step);
    OnlySessionsMove(sys, Next(cfg, sys, step));
  }

  lemma {:induction false} TurnInvariantHolds(cfg: Config, sys: System, steps: seq<Step>)
    requires sys.Sound() && TurnInvariant(sys)
    ensures TurnInvariant(Exec(cfg, sys, steps))
    ensures Evolves(sys.turns, Exec(cfg, sys, steps).turns)
  {
    hide Next, TurnInvariant, Evolves;
    if steps == [] {
      EvolvesIsReflexive(sys.turns);
    } else {
      var front, step := steps[..|steps| - 1], steps[|steps| - 1];
      var before := Exec(cfg, sys, front);
      TurnInvariantHolds(cfg, sys, front);
      StepKeepsTurnInvariant(cfg, before, step);
      InvariantGivesUniqueTurns(before);
      StepEvolvesTurns(cfg, before, step);
      EvolvesIsTransitive(sys.turns, before.turns, Exec(cfg, sys, steps).turns);
    }
  }

  lemma InvariantGivesUniqueTurns(sys: System)
    requires TurnInvariant(sys)
    ensures UniqueKeys(sys.turns) && OneActive(sys.turns)
  {}

  // ---- theorems ----

  /** In every reachable state a session has at most one unfinished turn and one turn per client
      key; no turn, and so no client key, was dispatched twice; and along every continuation
      turns keep their identity and finished ones stay as they are. */
  lemma TurnStateMachine(cfg: Config, first: seq<Step>, second: seq<Step>)
    ensures INIT.Sound()
    ensures
      var sys := Exec(cfg, INIT, first);
      && UniqueKeys(sys.turns) && OneActive(sys.turns)
      && (forall i, j :: 0 <= i < j < |sys.dispatched| ==>
            && sys.dispatched[i] in sys.turns && sys.dispatched[j] in sys.turns
            && (sys.turns[sys.dispatched[i]].sessionId, sys.turns[sys.dispatched[i]].clientKey)
               != (sys.turns[sys.dispatched[j]].sessionId, sys.turns[sys.dispatched[j]].clientKey))
      && Evolves(sys.turns, Exec(cfg, sys, second).turns)
  {
    InitialTurns();
    TurnInvariantHolds(cfg, INIT, first);
    TurnInvariantHolds(cfg, Exec(cfg, INIT, first), second);
    hide Exec, Next, Evolves;
  }

  /** Some request is still working for the turn. */
  ghost predicate InFlight(sys: System, t: TurnId) {
    exists q :: q in sys.requests && WorksFor(sys.requests[q], t)
  }

  /** The turn's own lease is still current. */
  ghost predicate Leading(sys: System, t: TurnId)
    requires t in sys.turns
  {
    CurrentLease(sys.sessions, sys.turns[t].sessionId, sys.turns[t].worker, sys.turns[t].leaseEpoch)
  }

  /** An unfinished turn whose lease is lost and for which no request is in flight. */
  ghost predicate Stranded(sys: System, t: TurnId) {
    && t in sys.turns && sys.turns[t].Active() && !InFlight(sys, t)
    && Lost(sys.sessions, sys.turns[t].sessionId, sys.turns[t].worker, sys.turns[t].leaseEpoch)
  }

  /** No request can start working for an existing turn. */
  lemma StepKeepsOutOfFlight(cfg: Config, sys: System, step: Step, t: TurnId)
    requires sys.Sound() && t in sys.turns && !InFlight(sys, t)
    ensures !InFlight(Next(cfg, sys, step), t)
  {
    hide Rehomed, Inserted, Prompted, Ingested, KeyTaken, HasActive, HeldBy, Admitted, ClientKey;
    var after := Next(cfg, sys, step);
    forall q | q in after.requests ensures !WorksFor(after.requests[q], t) {
      assert q in sys.requests ==> !WorksFor(sys.requests[q], t);
    }
  }

  /** A step that is no ingest cannot touch a turn nobody works for. */
  lemma StepIgnoresTurn(cfg: Config, sys: System, step: Step, t: TurnId)
    requires sys.Sound() && t in sys.turns && !InFlight(sys, t) && !step.IngestEvent?
    ensures t in Next(cfg, sys, step).turns && Next(cfg, sys, step).turns[t] == sys.turns[t]
  {
    hide AfterPass, AfterCreate, AfterPlace, KeyTaken, HasActive, ClientKey;
    match step
    case PromptLease(q, _) =>
      assert q in sys.requests ==> !WorksFor(sys.requests[q], t);
    case PromptReply(q, _, _, _) =>
      assert q in sys.requests ==> !WorksFor(sys.requests[q], t);
    case PromptCreate(_, _, _, _) =>
    case _ =>
      OtherStepsKeepTurns(cfg, sys, step);
  }

  /** An ingest cannot touch a turn whose lease is not current. */
  lemma IngestIgnoresTurn(cfg: Config, sys: System, step: Step, t: TurnId)
    requires sys.Sound() && t in sys.turns && step.IngestEvent?
    requires !Leading(sys, t)
    ensures t in Next(cfg, sys, step).turns && Next(cfg, sys, step).turns[t] == sys.turns[t]
  {
    hide Appended;
  }

  lemma StepKeepsStranded(cfg: Config, sys: System, step: Step, t: TurnId)
    requires sys.Sound() && Stranded(sys, t)
    ensures Stranded(Next(cfg, sys, step), t) && Next(cfg, sys, step).turns[t] == sys.turns[t]
  {
    StepAdvancesSessions(cfg, sys, step);
    StepKeepsOutOfFlight(cfg, sys, step, t);
    if step.IngestEvent? {
      IngestIgnoresTurn(cfg, sys, step, t);
    } else {
      StepIgnoresTurn(cfg, sys, step, t);
    }
    hide Next, InFlight;
  }

  /** A stranded turn stays stranded and unchanged in every continuation. */
  lemma {:induction false} StrandedForever(cfg: Config, sys: System, steps: seq<Step>, t: TurnId)
    requires sys.Sound() && Stranded(sys, t)
    ensures Stranded(Exec(cfg, sys, steps), t) && Exec(cfg, sys, steps).turns[t] == sys.turns[t]
  {
    hide Next, Lost, InFlight;
    if steps != [] {
      var front := steps[..|steps| - 1];
      StrandedForever(cfg, sys, front, t);
      StepKeepsStranded(cfg, Exec(cfg, sys, front), steps[|steps| - 1], t);
    }
  }

  // ---- the other direction: runs that end a turn ----

  /** A string longer than every row id, so a fresh one. */
  function FreshId(events: seq<EventRow>): (id: string)
    ensures forall i :: 0 <= i < |events| ==> |events[i].id| < |id|
  {
    if events == [] then "x" else
    var id, last := FreshId(events[..|events| - 1]), events[|events| - 1].id;
    assert forall i :: 0 <= i < |events| - 1 ==> events[..|events| - 1][i] == events[i];
    if |last| < |id| then id else last + "x"
  }

  /** The steps finish the turn. */
  ghost predicate FinishedBy(cfg: Config, sys: System, steps: seq<Step>, t: TurnId)
    requires sys.Sound()
  {
    t in Exec(cfg, sys, steps).turns && !Exec(cfg, sys, steps).turns[t].Active()
  }

  lemma FinishedByOne(cfg: Config, sys: System, step: Step, t: TurnId)
    requires sys.Sound()
    requires t in Next(cfg, sys, step).turns && !Next(cfg, sys, step).turns[t].Active()
    ensures FinishedBy(cfg, sys, [step], t)
  {
    hide Next, Exec;
    ExecOne(cfg, sys, step);
  }

  lemma FinishedByTwo(cfg: Config, sys: System, first: Step, second: Step, t: TurnId)
    requires sys.Sound() && Next(cfg, sys, first).Sound()
    requires var after := Next(cfg, Next(cfg, sys, first), second); t in after.turns && !after.turns[t].Active()
    ensures FinishedBy(cfg, sys, [first] + [second], t)
  {
    hide Next, Exec;
    ExecOne(cfg, sys, first);
    ExecOne(cfg, Next(cfg, sys, first), second);
    ExecAppend(cfg, sys, [first], [second]);
  }

  /** The holder of the current lease ends the turn by reporting idle. */
  lemma HolderCanEnd(cfg: Config, sys: System, t: TurnId)
    requires sys.Sound() && t in sys.turns && sys.turns[t].Active() && Leading(sys, t)
    requires t != "" && sys.turns[t].sessionId != ""
    ensures exists steps :: FinishedBy(cfg, sys, steps, t)
  {
    hide Exec;
    var turn := sys.turns[t];
    var env := Envelope(turn.sessionId, t, turn.leaseEpoch, [1], IDLE, EventData("", None));
    var id := FreshId(sys.events);
    assert !IdUsed(sys.events, id);
    var step := IngestEvent(turn.worker, env, id, 0);
    var after := Next(cfg, sys, step);
    assert Ingested(sys.sessions, sys.turns, sys.events, turn.worker, env, id, 0).Ok?;
    assert after.turns == CompletedTurn(sys.turns, t, turn.worker, turn.leaseEpoch, 0);
    assert after.turns[t].status == Completed;
    FinishedByOne(cfg, sys, step, t);
  }

  /** A failed reply ends a dispatched turn. */
  lemma DispatchedCanEnd(cfg: Config, sys: System, t: TurnId, q: nat)
    requires sys.Sound() && TurnInvariant(sys) && t in sys.turns && sys.turns[t].Active()
    requires q in sys.requests && sys.requests[q].Dispatched? && sys.requests[q].turn == t
    ensures var after := Next(cfg, sys, PromptReply(q, false, "", 0));
      t in after.turns && !after.turns[t].Active()
  {
    assert RequestFits(sys, sys.requests[q]);
    hide UniqueKeys, OneActive;
  }

  lemma InFlightCanEnd(cfg: Config, sys: System, t: TurnId)
    requires sys.Sound() && TurnInvariant(sys) && t in sys.turns && sys.turns[t].Active() && InFlight(sys, t)
    ensures exists steps :: FinishedBy(cfg, sys, steps, t)
  {
    var q :| q in sys.requests && WorksFor(sys.requests[q], t);
    assert RequestFits(sys, sys.requests[q]);
    hide Exec, Next, FinishedBy, TurnInvariant, RequestFits, InFlight;
    if sys.requests[q].Dispatched? {
      DispatchedCanEnd(cfg, sys, t, q);
      FinishedByOne(cfg, sys, PromptReply(q, false, "", 0), t);
    } else {
      CreatedCanEnd(cfg, sys, t, q);
    }
  }

  lemma CreatedCanEnd(cfg: Config, sys: System, t: TurnId, q: nat)
    requires sys.Sound() && TurnInvariant(sys) && t in sys.turns && sys.turns[t].Active()
    requires q in sys.requests && sys.requests[q].Created? && sys.requests[q].turn == t
    ensures exists steps :: FinishedBy(cfg, sys, steps, t)
  {
    assert RequestFits(sys, sys.requests[q]);
    hide Exec, Next, FinishedBy, TurnInvariant, RequestFits;
    var lease := PromptLease(q, 0);
    LeaseThenReply(cfg, sys, q, t);
    StepKeepsTurnInvariant(cfg, sys, lease);
    StepAdvancesSessions(cfg, sys, lease);
    DispatchedCanEnd(cfg, Next(cfg, sys, lease), t, q);
    FinishedByTwo(cfg, sys, lease, PromptReply(q, false, "", 0), t);
  }

  lemma LeaseThenReply(cfg: Config, sys: System, q: nat, t: TurnId)
    requires sys.Sound() && q in sys.requests && sys.requests[q].Created? && sys.requests[q].turn == t
    requires t in sys.turns && sys.turns[t].Active() && RequestFits(sys, sys.requests[q])
    ensures var mid := Next(cfg, sys, PromptLease(q, 0));
      && q in mid.requests && mid.requests[q].Dispatched? && mid.requests[q].turn == t
      && t in mid.turns && mid.turns[t].Active()
  {}

  /** From a reachable state an unfinished turn can still end exactly when its own lease is
      current or a request is still working for it. */
  lemma TurnCanEnd(cfg: Config, run: seq<Step>, t: TurnId)
    requires INIT.Sound()
    requires var sys := Exec(cfg, INIT, run);
      t in sys.turns && sys.turns[t].Active() && t != "" && sys.turns[t].sessionId != ""
    ensures var sys := Exec(cfg, INIT, run);
      (exists steps :: FinishedBy(cfg, sys, steps, t)) <==> Leading(sys, t) || InFlight(sys, t)
  {
    var sys := Exec(cfg, INIT, run);
    InitialTurns();
    hide Exec, FinishedBy, InFlight, TurnInvariant;
    TurnInvariantHolds(cfg, INIT, run);
    if Leading(sys, t) {
      HolderCanEnd(cfg, sys, t);
    } else if InFlight(sys, t) {
      InFlightCanEnd(cfg, sys, t);
    } else {
      NotLeadingIsLost(sys, t);
      forall steps ensures !FinishedBy(cfg, sys, steps, t) {
        StrandedForever(cfg, sys, steps, t);
        StrandedIsUnfinished(cfg, sys, steps, t);
      }
    }
  }

  lemma InitialTurns()
    ensures INIT.Sound() && TurnInvariant(INIT)
  {}

  lemma NotLeadingIsLost(sys: System, t: TurnId)
    requires TurnInvariant(sys) && t in sys.turns && sys.turns[t].Active()
    requires !Leading(sys, t) && !InFlight(sys, t)
    ensures Stranded(sys, t)
  {
    hide UniqueKeys, OneActive, RequestsFit, OneRequestPerTurn, InFlight;
  }

  /** A restart of the master forgets its requests: it strands exactly the unfinished turns without a current lease. */
  lemma RestartStrandsIff(cfg: Config, sys: System, t: TurnId)
    requires sys.Sound() && TurnInvariant(sys) && t in sys.turns && sys.turns[t].Active()
    ensures Stranded(Next(cfg, sys, Restart), t) <==> !Leading(sys, t)
  {
    hide UniqueKeys, OneActive, RequestsFit, OneRequestPerTurn;
  }

  lemma StrandedIsUnfinished(cfg: Config, sys: System, steps: seq<Step>, t: TurnId)
    requires sys.Sound() && Stranded(Exec(cfg, sys, steps), t)
    ensures !FinishedBy(cfg, sys, steps, t)
  {
    hide Exec, InFlight;
  }

  /** A stranded turn blocks its session: in no continuation is another turn admitted to it. */
  lemma StrandedBlocksSession(cfg: Config, sys: System, steps: seq<Step>, t: TurnId, id: TurnId, key: string)
    requires sys.Sound() && Stranded(sys, t)
    ensures var end := Exec(cfg, sys, steps);
      AdmissionOutcome(end.turns, sys.turns[t].sessionId, id, key) in {Existing, Refused(ActiveTurn)}
  {
    StrandedForever(cfg, sys, steps, t);
    hide Exec, Next, InFlight, KeyTaken;
  }
}
