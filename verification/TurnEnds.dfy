/** Which steps end a turn, and how: exactly the idle events complete, exactly the error events and the refused
    dispatches fail. */
module TurnEnds {
  import opened Prelude
  import opened Records
  import opened TurnService
  import opened EventJournal
  import opened Ingest
  import opened Protocol
  import opened TurnSafety

  // ---- one event ----

  /** An event is accepted if and only if it is complete, names its turn's lease, that lease is current, and it is
      known or comes with an unused row id. */
  lemma AcceptedIff(sys: System, w: WorkerId, env: Envelope, id: string, now: int)
    ensures Ingested(sys.sessions, sys.turns, sys.events, w, env, id, now).Ok? <==>
      && env.sessionId != "" && env.turnId != "" && env.sourceId != [] && env.kind != ""
      && env.turnId in sys.turns && env.sessionId in sys.sessions.rows
      && (var turn, session := sys.turns[env.turnId], sys.sessions.rows[env.sessionId];
          && turn.sessionId == env.sessionId && turn.worker == w && turn.leaseEpoch == env.leaseEpoch
          && session.owner == Some(w) && session.leaseEpoch == env.leaseEpoch)
      && ((exists i :: 0 <= i < |sys.events| && sys.events[i].sessionId == env.sessionId
                       && sys.events[i].sourceId == env.sourceId)
          || (forall i :: 0 <= i < |sys.events| ==> sys.events[i].id != id))
  {
    hide LatestSeq, TurnsAfter;
  }

  /** What an accepted event does to the turns: idle completes its unfinished turn, an execution error fails it, no
      other kind and no other turn. */
  lemma EventEnds(sys: System, w: WorkerId, env: Envelope, id: string, now: int)
    ensures var after := AfterIngest(sys, w, env, id, now).turns;
      if !Ingested(sys.sessions, sys.turns, sys.events, w, env, id, now).Ok? then after == sys.turns else
      && env.turnId in sys.turns
      && (var turn := sys.turns[env.turnId];
          after ==
            if turn.status !in {Pending, Leased} then sys.turns
            else if env.kind == "session.idle" then
              sys.turns[env.turnId := turn.(status := Completed, updatedAt := now, completedAt := Some(now))]
            else if env.kind == "worker.execution.error" then
              sys.turns[env.turnId := turn.(
                status := Failed, updatedAt := now,
                errorMessage := Some(if env.data.message.Some? then env.data.message.value
                                     else "worker execution failed"))]
            else sys.turns)
  {
    hide Appended, CurrentLease;
  }

  // ---- one step ----

  /** The step is an accepted idle event of the turn, which is unfinished. */
  ghost predicate Completes(sys: System, step: Step, t: TurnId, at: int) {
    && t in sys.turns && sys.turns[t].status in {Pending, Leased}
    && step.IngestEvent? && step.env.turnId == t && step.env.kind == "session.idle" && step.now == at
    && Ingested(sys.sessions, sys.turns, sys.events, step.worker, step.env, step.id, step.now).Ok?
  }

  /** The step is an accepted error event of the turn with that message, or the message of a refused dispatch. */
  ghost predicate Fails(sys: System, step: Step, t: TurnId, message: string) {
    && t in sys.turns && sys.turns[t].status in {Pending, Leased}
    && ((&& step.IngestEvent? && step.env.turnId == t && step.env.kind == "worker.execution.error"
         && Ingested(sys.sessions, sys.turns, sys.events, step.worker, step.env, step.id, step.now).Ok?
         && message == (if step.env.data.message.Some? then step.env.data.message.value else "worker execution failed"))
        || (&& step.PromptReply? && !step.ok && step.message == message && step.request in sys.requests
            && sys.requests[step.request].Dispatched? && sys.requests[step.request].turn == t))
  }

  /** The turn is completed at that time. */
  predicate CompletedAt(turns: Turns, t: TurnId, at: int) {
    t in turns && turns[t].status == Completed && turns[t].completedAt == Some(at)
  }

  predicate FailedWith(turns: Turns, t: TurnId, message: string) {
    t in turns && turns[t].status == Failed && turns[t].errorMessage == Some(message)
  }

  /** An unfinished turn has neither a time nor a message, a completed one a time, a failed one a message. */
  ghost predicate EndsRecorded(turns: Turns) {
    forall t :: t in turns ==>
      match turns[t].status
      case Completed => turns[t].completedAt.Some? && turns[t].errorMessage.None?
      case Failed => turns[t].completedAt.None? && turns[t].errorMessage.Some?
      case _ => turns[t].completedAt.None? && turns[t].errorMessage.None?
  }

  lemma IngestEnds(cfg: Config, sys: System, step: Step, t: TurnId, at: int, message: string)
    requires sys.Sound() && EndsRecorded(sys.turns) && step.IngestEvent?
    ensures var after := Next(cfg, sys, step).turns;
      && EndsRecorded(after) && after.Keys == sys.turns.Keys
      && (CompletedAt(after, t, at) <==> CompletedAt(sys.turns, t, at) || Completes(sys, step, t, at))
      && (FailedWith(after, t, message) <==> FailedWith(sys.turns, t, message) || Fails(sys, step, t, message))
  {
    EventEnds(sys, step.worker, step.env, step.id, step.now);
    hide Ingested;
  }

  /** What the worker's answer does to the turns: a refusal fails the dispatched turn if it is unfinished. */
  lemma ReplyFails(cfg: Config, sys: System, step: Step)
    requires sys.Sound() && TurnInvariant(sys) && step.PromptReply?
    ensures var after := Next(cfg, sys, step).turns;
      if step.request in sys.requests && sys.requests[step.request].Dispatched? then
        var t := sys.requests[step.request].turn;
        && t in sys.turns
        && after == if step.ok || sys.turns[t].status !in {Pending, Leased} then sys.turns
                    else sys.turns[t := sys.turns[t].(status := Failed, errorMessage := Some(step.message),
                                                      updatedAt := step.now)]
      else after == sys.turns
  {
    if step.request in sys.requests {
      assert RequestFits(sys, sys.requests[step.request]);
    }
    hide TurnInvariant;
  }

  lemma ReplyEnds(cfg: Config, sys: System, step: Step, t: TurnId, at: int, message: string)
    requires sys.Sound() && TurnInvariant(sys) && EndsRecorded(sys.turns) && step.PromptReply?
    ensures var after := Next(cfg, sys, step).turns;
      && EndsRecorded(after) && after.Keys == sys.turns.Keys
      && (CompletedAt(after, t, at) <==> CompletedAt(sys.turns, t, at) || Completes(sys, step, t, at))
      && (FailedWith(after, t, message) <==> FailedWith(sys.turns, t, message) || Fails(sys, step, t, message))
  {
    ReplyFails(cfg, sys, step);
    hide TurnInvariant, Next, Ingested;
  }

  lemma OtherStepsEndNothing(cfg: Config, sys: System, step: Step, t: TurnId, at: int, message: string)
    requires sys.Sound() && EndsRecorded(sys.turns) && !step.IngestEvent? && !step.PromptReply?
    ensures var after := Next(cfg, sys, step).turns;
      && EndsRecorded(after)
      && (CompletedAt(after, t, at) <==> CompletedAt(sys.turns, t, at))
      && (FailedWith(after, t, message) <==> FailedWith(sys.turns, t, message))
  {
    hide KeyTaken, HasActive, ClientKey, AfterPass, AfterCreate, AfterPlace;
    if !step.PromptCreate? && !step.PromptLease? {
      OtherStepsKeepTurns(cfg, sys, step);
    }
  }

  /** A step leaves a turn completed, or failed with a message, if and only if it was so or the step does it. */
  lemma StepEndsIff(cfg: Config, sys: System, step: Step, t: TurnId, at: int, message: string)
    requires sys.Sound() && TurnInvariant(sys) && EndsRecorded(sys.turns)
    ensures var after := Next(cfg, sys, step).turns;
      && EndsRecorded(after)
      && (CompletedAt(after, t, at) <==> CompletedAt(sys.turns, t, at) || Completes(sys, step, t, at))
      && (FailedWith(after, t, message) <==> FailedWith(sys.turns, t, message) || Fails(sys, step, t, message))
  {
    hide Next, EndsRecorded, CompletedAt, FailedWith, TurnInvariant, Ingested;
    if step.IngestEvent? {
      IngestEnds(cfg, sys, step, t, at, message);
    } else if step.PromptReply? {
      ReplyEnds(cfg, sys, step, t, at, message);
    } else {
      OtherStepsEndNothing(cfg, sys, step, t, at, message);
    }
  }

  // ---- runs ----

  ghost predicate SomeStepCompletes(cfg: Config, run: seq<Step>, t: TurnId, at: int)
    requires INIT.Sound()
  {
    exists n :: 0 <= n < |run| && Completes(Exec(cfg, INIT, run[..n]), run[n], t, at)
  }

  ghost predicate SomeStepFails(cfg: Config, run: seq<Step>, t: TurnId, message: string)
    requires INIT.Sound()
  {
    exists n :: 0 <= n < |run| && Fails(Exec(cfg, INIT, run[..n]), run[n], t, message)
  }

  lemma SomeStepSnoc(cfg: Config, run: seq<Step>, t: TurnId, at: int, message: string)
    requires INIT.Sound() && run != []
    ensures var front, step := run[..|run| - 1], run[|run| - 1];
      var before := Exec(cfg, INIT, front);
      && (SomeStepCompletes(cfg, run, t, at)
          <==> SomeStepCompletes(cfg, front, t, at) || Completes(before, step, t, at))
      && (SomeStepFails(cfg, run, t, message)
          <==> SomeStepFails(cfg, front, t, message) || Fails(before, step, t, message))
  {
    hide Exec, Completes, Fails;
    var front, step := run[..|run| - 1], run[|run| - 1];
    assert forall n :: 0 <= n < |front| ==> front[n] == run[n] && front[..n] == run[..n];
    assert run[..|front|] == front && run[|front|] == step;
    if Completes(Exec(cfg, INIT, front), step, t, at) {
      assert Completes(Exec(cfg, INIT, run[..|front|]), run[|front|], t, at);
    }
    if Fails(Exec(cfg, INIT, front), step, t, message) {
      assert Fails(Exec(cfg, INIT, run[..|front|]), run[|front|], t, message);
    }
  }

  /** Over every run: a turn is completed if and only if some step was an accepted idle event of it while it was
      unfinished, and then since that step's time; it is failed if and only if some step was such an error event or
      the refusal of its dispatch, and then with that step's message. */
  lemma {:induction false} TurnEndsIff(cfg: Config, run: seq<Step>, t: TurnId, at: int, message: string)
    ensures INIT.Sound()
    ensures var turns := Exec(cfg, INIT, run).turns;
      && EndsRecorded(turns)
      && (CompletedAt(turns, t, at) <==> SomeStepCompletes(cfg, run, t, at))
      && (FailedWith(turns, t, message) <==> SomeStepFails(cfg, run, t, message))
  {
    hide Next, EndsRecorded, CompletedAt, FailedWith, TurnInvariant, Completes, Fails;
    if run == [] {
      NoTurnsYet(t, at, message);
    } else {
      var front, step := run[..|run| - 1], run[|run| - 1];
      TurnEndsIff(cfg, front, t, at, message);
      InitialTurns();
      TurnInvariantHolds(cfg, INIT, front);
      SomeStepSnoc(cfg, run, t, at, message);
      StepEndsIff(cfg, Exec(cfg, INIT, front), step, t, at, message);
    }
  }

  lemma NoTurnsYet(t: TurnId, at: int, message: string)
    ensures EndsRecorded(INIT.turns) && !CompletedAt(INIT.turns, t, at) && !FailedWith(INIT.turns, t, message)
  {}
}
