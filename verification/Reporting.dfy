/** A worker reporting an event to the master over a lossy channel, with bounded retries. */
module Reporting {
  import opened Prelude
  import opened Sequences
  import opened Records
  import opened TurnService
  import opened EventJournal
  import opened Ingest
  import opened Protocol
  import opened Fencing

  /** What happens to one request: it is lost, refused before the handler, or handled; the answer
      to a handled request may be lost. */
  datatype Delivery =
    | RequestLost
    | Refused
    | Handled(id: string, now: int)
    | AnswerLost(id: string, now: int)

  /** One attempt, after the steps others took since the previous one. */
  datatype Attempt = Attempt(before: seq<Step>, delivery: Delivery)

  datatype Response = NoResponse | Status(ok: bool)

  /** One request of a worker against the master. */
  function Deliver(cfg: Config, sys: System, worker: WorkerId, env: Envelope, attempt: Attempt): (System, Response)
    requires sys.Sound()
  {
    var mid := Exec(cfg, sys, attempt.before);
    match attempt.delivery
    case RequestLost => (mid, NoResponse)
    case Refused => (mid, Status(false))
    case Handled(id, now) =>
      (AfterIngest(mid, worker, env, id, now),
       Status(Ingested(mid.sessions, mid.turns, mid.events, worker, env, id, now).Ok?))
    case AnswerLost(id, now) => (AfterIngest(mid, worker, env, id, now), NoResponse)
  }

  lemma DeliverIsSound(cfg: Config, sys: System, worker: WorkerId, env: Envelope, attempt: Attempt)
    requires sys.Sound()
    ensures Deliver(cfg, sys, worker, env, attempt).0.Sound()
  {
    hide Exec, Ingested;
  }

  /** An event whose answer is lost is handled all the same; a lost or refused request changes nothing, and only an
      accepted event is acknowledged. */
  lemma DeliverMeaning(cfg: Config, sys: System, worker: WorkerId, env: Envelope, before: seq<Step>, id: string, now: int)
    requires sys.Sound()
    ensures Exec(cfg, sys, before).Sound()
    ensures var mid := Exec(cfg, sys, before);
      var after := Next(cfg, mid, IngestEvent(worker, env, id, now));
      && Deliver(cfg, sys, worker, env, Attempt(before, RequestLost)) == (mid, NoResponse)
      && Deliver(cfg, sys, worker, env, Attempt(before, Delivery.Refused)) == (mid, Status(false))
      && Deliver(cfg, sys, worker, env, Attempt(before, AnswerLost(id, now))) == (after, NoResponse)
      && (var (end, response) := Deliver(cfg, sys, worker, env, Attempt(before, Handled(id, now)));
          && end == after && response.Status?
          && (!response.ok ==> after == mid)
          && (response.ok ==> Known(after.events, env.sessionId, env.sourceId)))
  {
    hide Exec, Complete, TurnsAfter, LatestSeq;
    var mid := Exec(cfg, sys, before);
    if Ingested(mid.sessions, mid.turns, mid.events, worker, env, id, now).Ok? {
      AppendedIsKnown(mid.events, EventOf(mid.sessions, worker, env), id, now);
    }
  }

  lemma AppendedIsKnown(events: seq<EventRow>, input: NewEvent, id: string, now: int)
    requires Appended(events, input, id, now).Ok?
    ensures Known(Appended(events, input, id, now).value, input.sessionId, input.sourceId)
  {
    var after := Appended(events, input, id, now).value;
    if !Known(events, input.sessionId, input.sourceId) {
      assert after[|events|].sourceId == input.sourceId;
    }
  }

  /** The retry loop as a run: stops at the first ok answer, false when every attempt failed. */
  function Reported(cfg: Config, sys: System, worker: WorkerId, env: Envelope, plan: seq<Attempt>): (System, bool)
    requires sys.Sound()
    decreases |plan|
  {
    if plan == [] then (sys, false) else
    var (after, response) := Deliver(cfg, sys, worker, env, plan[0]);
    DeliverIsSound(cfg, sys, worker, env, plan[0]);
    if response == Status(true) then (after, true) else Reported(cfg, after, worker, env, plan[1..])
  }

  /** The network between one worker and the master, with a script of what it will do. */
  class Channel {
    const cfg: Config
    const worker: WorkerId
    var master: System
    var script: seq<Attempt>

    constructor (cfg: Config, worker: WorkerId, master: System, script: seq<Attempt>)
      requires master.Sound()
      ensures this.cfg == cfg && this.worker == worker && this.master == master && this.script == script
    {
      this.cfg, this.worker, this.master, this.script := cfg, worker, master, script;
    }

    method Fetch(env: Envelope) returns (response: Response)
      requires master.Sound() && script != []
      modifies this
      ensures (master, response) == Deliver(cfg, old(master), worker, env, old(script)[0])
      ensures script == old(script)[1..] && master.Sound()
    {
      DeliverIsSound(cfg, master, worker, env, script[0]);
      var (after, answer) := Deliver(cfg, master, worker, env, script[0]);
      master, script, response := after, script[1..], answer;
    }
  }

  class MasterEventReporter {
    const channel: Channel
    const retryCount: nat

    constructor (channel: Channel, retryCount: nat := 3)
      ensures this.channel == channel && this.retryCount == retryCount
    {
      this.channel, this.retryCount := channel, retryCount;
    }

    /** Returns whether the event was acknowledged; the caller throws otherwise. */
    method Report(env: Envelope) returns (ok: bool)
      requires channel.master.Sound() && |channel.script| >= retryCount
      modifies channel
      ensures channel.master.Sound()
      ensures (channel.master, ok)
           == Reported(channel.cfg, old(channel.master), channel.worker, env, old(channel.script)[..retryCount])
    {
      hide Deliver;
      ghost var plan := channel.script[..retryCount];
      ok := false;
      for attempt := 0 to retryCount
        invariant channel.master.Sound()
        invariant |channel.script| >= retryCount - attempt
        invariant channel.script[..retryCount - attempt] == plan[attempt..]
        invariant Reported(channel.cfg, old(channel.master), channel.worker, env, plan)
               == Reported(channel.cfg, channel.master, channel.worker, env, plan[attempt..])
      {
        ghost var rest := plan[attempt..];
        assert rest[0] == channel.script[0] && rest[1..] == plan[attempt + 1..];
        var response := channel.Fetch(env);
        if response == Status(true) {
          return true;
        }
      }
    }
  }

  // ---- exactly once ----

  /** Nobody else uses the source id of the envelope. */
  predicate LeavesSource(step: Step, env: Envelope) {
    step.IngestEvent? ==> !(step.env.sessionId == env.sessionId && step.env.sourceId == env.sourceId)
  }

  ghost predicate PlanLeavesSource(plan: seq<Attempt>, env: Envelope) {
    forall i, j :: 0 <= i < |plan| && 0 <= j < |plan[i].before| ==> LeavesSource(plan[i].before[j], env)
  }

  /** The row stores this very event for this worker. */
  predicate Carries(row: EventRow, worker: WorkerId, env: Envelope) {
    && row.turnId == env.turnId && row.worker == worker && row.leaseEpoch == env.leaseEpoch
    && row.kind == env.kind && row.data == env.data
  }

  /** Every row under the envelope's source id carries the envelope. */
  ghost predicate OnlyOurs(events: seq<EventRow>, worker: WorkerId, env: Envelope) {
    forall i :: 0 <= i < |events| && events[i].sessionId == env.sessionId && events[i].sourceId == env.sourceId
      ==> Carries(events[i], worker, env)
  }

  /** The invariant of a report in progress. */
  ghost predicate InProgress(sys: System, worker: WorkerId, env: Envelope) {
    && sys.Sound() && UniqueKeys(sys.turns) && OneActive(sys.turns) && ValidLog(sys.events)
    && OnlyOurs(sys.events, worker, env)
  }

  lemma OthersKeepOurs(cfg: Config, sys: System, step: Step, worker: WorkerId, env: Envelope)
    requires sys.Sound() && LeavesSource(step, env) && ValidLog(sys.events) && OnlyOurs(sys.events, worker, env)
    ensures OnlyOurs(Next(cfg, sys, step).events, worker, env)
  {
    hide ValidLog, LeaseHolds, TurnsAfter, Complete, LatestSeq, Known;
    if !step.IngestEvent? {
      OtherStepsKeepJournal(cfg, sys, step);
    }
  }

  lemma {:induction false} InterferenceKeepsProgress(cfg: Config, sys: System, steps: seq<Step>, worker: WorkerId, env: Envelope)
    requires InProgress(sys, worker, env)
    requires forall j :: 0 <= j < |steps| ==> LeavesSource(steps[j], env)
    ensures InProgress(Exec(cfg, sys, steps), worker, env)
    ensures Evolves(sys.turns, Exec(cfg, sys, steps).turns)
  {
    hide Next, ValidLog, UniqueKeys, OneActive, OnlyOurs, LeavesSource, Evolves;
    if steps == [] {
      EvolvesIsReflexive(sys.turns);
    } else {
      var front, step := steps[..|steps| - 1], steps[|steps| - 1];
      InterferenceKeepsProgress(cfg, sys, front, worker, env);
      var before := Exec(cfg, sys, front);
      StepAdvancesSessions(cfg, before, step);
      StepEvolvesTurns(cfg, before, step);
      StepExtendsJournal(cfg, before, step);
      OthersKeepOurs(cfg, before, step, worker, env);
      EvolvesIsTransitive(sys.turns, before.turns, Next(cfg, before, step).turns);
    }
  }

  /** An accepted envelope is stored, now or earlier, and a final one ends its turn. */
  lemma HandlingStores(sys: System, worker: WorkerId, env: Envelope, id: string, now: int)
    requires InProgress(sys, worker, env)
    ensures var after := AfterIngest(sys, worker, env, id, now);
      && InProgress(after, worker, env) && Evolves(sys.turns, after.turns)
      && (Ingested(sys.sessions, sys.turns, sys.events, worker, env, id, now).Ok? ==>
            && Known(after.events, env.sessionId, env.sourceId)
            && env.turnId in after.turns
            && (env.kind in {IDLE, EXECUTION_ERROR} ==> !after.turns[env.turnId].Active()))
  {
    FinishingEvolves(sys.turns, env.turnId, worker, env.leaseEpoch, env.data.message.GetOr(DEFAULT_FAILURE), now);
    if Ingested(sys.sessions, sys.turns, sys.events, worker, env, id, now).Ok? {
      AppendKeepsLog(sys.events, EventOf(sys.sessions, worker, env), id, now);
    }
    hide ValidLog, UniqueKeys, OneActive, Evolves, LatestSeq, SessionLog;
  }

  lemma DeliveryKeepsProgress(cfg: Config, sys: System, worker: WorkerId, env: Envelope, attempt: Attempt)
    requires sys.Sound() && InProgress(sys, worker, env)
    requires forall j :: 0 <= j < |attempt.before| ==> LeavesSource(attempt.before[j], env)
    ensures var (after, response) := Deliver(cfg, sys, worker, env, attempt);
      && InProgress(after, worker, env) && Evolves(sys.turns, after.turns)
      && (response == Status(true) ==>
            && Known(after.events, env.sessionId, env.sourceId)
            && env.turnId in after.turns
            && (env.kind in {IDLE, EXECUTION_ERROR} ==> !after.turns[env.turnId].Active()))
  {
    hide InProgress, Evolves, Exec, Ingested, Known, LeavesSource;
    InterferenceKeepsProgress(cfg, sys, attempt.before, worker, env);
    var mid := Exec(cfg, sys, attempt.before);
    if attempt.delivery.Handled? || attempt.delivery.AnswerLost? {
      HandlingStores(mid, worker, env, attempt.delivery.id, attempt.delivery.now);
      EvolvesIsTransitive(sys.turns, mid.turns, Deliver(cfg, sys, worker, env, attempt).0.turns);
    }
  }

  lemma {:induction false} ReportKeepsProgress(cfg: Config, sys: System, worker: WorkerId, env: Envelope, plan: seq<Attempt>)
    requires sys.Sound() && InProgress(sys, worker, env) && PlanLeavesSource(plan, env)
    ensures var (end, ok) := Reported(cfg, sys, worker, env, plan);
      && InProgress(end, worker, env) && Evolves(sys.turns, end.turns)
      && (ok ==>
            && Known(end.events, env.sessionId, env.sourceId)
            && env.turnId in end.turns
            && (env.kind in {IDLE, EXECUTION_ERROR} ==> !end.turns[env.turnId].Active()))
    decreases |plan|
  {
    hide InProgress, Evolves, Deliver, Known, LeavesSource;
    if plan == [] {
      EvolvesIsReflexive(sys.turns);
    } else {
      DeliveryKeepsProgress(cfg, sys, worker, env, plan[0]);
      DeliverIsSound(cfg, sys, worker, env, plan[0]);
      var (after, response) := Deliver(cfg, sys, worker, env, plan[0]);
      if response != Status(true) {
        assert forall i :: 0 <= i < |plan[1..]| ==> plan[1..][i] == plan[i + 1];
        ReportKeepsProgress(cfg, after, worker, env, plan[1..]);
        EvolvesIsTransitive(sys.turns, after.turns, Reported(cfg, after, worker, env, plan[1..]).0.turns);
      }
    }
  }

  function UnderSource(env: Envelope): EventRow -> bool {
    (e: EventRow) => e.sessionId == env.sessionId && e.sourceId == env.sourceId
  }

  /** The rows stored under the envelope's source id. */
  function RowsUnder(events: seq<EventRow>, env: Envelope): seq<EventRow> {
    Filter(events, UnderSource(env))
  }

  lemma RowsUnderSource(events: seq<EventRow>, env: Envelope)
    requires UniqueRows(events)
    ensures |RowsUnder(events, env)| == if Known(events, env.sessionId, env.sourceId) then 1 else 0
    ensures forall e :: e in RowsUnder(events, env) ==> e in events && UnderSource(env)(e)
  {
    if i :| 0 <= i < |events| && events[i].sessionId == env.sessionId && events[i].sourceId == env.sourceId {
      var low, high := events[..i], events[i + 1..];
      assert events == low + [events[i]] + high;
      FilterAppend(low + [events[i]], high, UnderSource(env));
      FilterSnoc(low, events[i], UnderSource(env));
      FilterNone(low, UnderSource(env));
      FilterNone(high, UnderSource(env));
    } else {
      FilterNone(events, UnderSource(env));
    }
    forall e | e in RowsUnder(events, env) ensures e in events && UnderSource(env)(e) {
      FilterMember(events, UnderSource(env), e);
    }
  }

  /** Reporting a fresh source id from any reachable state, over any channel and with any steps of
      others in between: an acknowledged event is in the journal exactly once and as sent, a
      failed report left it there at most once, and as sent; an acknowledged final event has
      ended its turn, and no redelivery changes a finished turn. */
  lemma ReportedExactlyOnce(cfg: Config, run: seq<Step>, worker: WorkerId, env: Envelope, plan: seq<Attempt>)
    requires INIT.Sound() && PlanLeavesSource(plan, env)
    requires !Known(Exec(cfg, INIT, run).events, env.sessionId, env.sourceId)
    ensures
      var sys := Exec(cfg, INIT, run);
      var (end, ok) := Reported(cfg, sys, worker, env, plan);
      var stored := RowsUnder(end.events, env);
      && |stored| <= 1 && (ok ==> |stored| == 1)
      && (forall e :: e in stored ==> Carries(e, worker, env))
      && Evolves(sys.turns, end.turns)
      && (ok && env.kind in {IDLE, EXECUTION_ERROR} ==>
            env.turnId in end.turns && !end.turns[env.turnId].Active())
  {
    JournalRespectsFailover(cfg, run);
    var sys := Exec(cfg, INIT, run);
    hide Exec, Reported, Known, Carries, LeavesSource, EventsMatchTurns, EventsFollowLeases, Filter, Evolves;
    NobodyYet(sys.events, worker, env);
    ReportKeepsProgress(cfg, sys, worker, env, plan);
    var (end, ok) := Reported(cfg, sys, worker, env, plan);
    RowsUnderSource(end.events, env);
  }

  lemma NobodyYet(events: seq<EventRow>, worker: WorkerId, env: Envelope)
    requires !Known(events, env.sessionId, env.sourceId)
    ensures OnlyOurs(events, worker, env)
  {}

  /** An accepted event is stored as sent exactly when its source id was new: a worker that
      restarts its numbering has its events acknowledged and dropped. */
  lemma AcceptedIsStored(sys: System, worker: WorkerId, env: Envelope, id: string, now: int)
    requires sys.Sound() && ValidLog(sys.events)
    requires Ingested(sys.sessions, sys.turns, sys.events, worker, env, id, now).Ok?
    ensures var after := AfterIngest(sys, worker, env, id, now);
      Known(sys.events, env.sessionId, env.sourceId)
      <==> after.events == sys.events
    ensures var after := AfterIngest(sys, worker, env, id, now);
      !Known(sys.events, env.sessionId, env.sourceId)
      <==> |after.events| == |sys.events| + 1 && sys.events <= after.events
           && Carries(after.events[|sys.events|], worker, env)
  {
    AppendKeepsLog(sys.events, EventOf(sys.sessions, worker, env), id, now);
    hide ValidLog, LatestSeq, SessionLog, LeaseHolds, TurnsAfter;
  }
}
