/** A worker process publishing its events: into its hub, and from there to the master under a source id
    made of its own id and the hub's number. */
module WorkerPublish {
  import opened Prelude
  import opened Sequences
  import opened HashString
  import opened Records
  import opened TurnService
  import opened EventJournal
  import opened Ingest
  import opened Protocol
  import opened Fencing
  import opened StreamHub
  import opened Reporting
  import CH = ConsistentHash

  /** The envelope of the n-th event of a session. */
  function EnvelopeOf(worker: WorkerId, s: SessionId, turn: TurnId, leaseEpoch: int, n: nat, kind: string,
                      data: EventData): Envelope
  {
    Envelope(s, turn, leaseEpoch, SourceId(worker, n), kind, data)
  }

  /** It is sent under the id of the worker, a colon and the decimal number. */
  lemma EnvelopeText(worker: WorkerId, s: SessionId, turn: TurnId, leaseEpoch: int, n: nat, kind: string, data: EventData)
    ensures EnvelopeOf(worker, s, turn, leaseEpoch, n, kind, data)
         == Envelope(s, turn, leaseEpoch, worker + [0x3a] + CH.Decimal(n), kind, data)
  {
    hide CH.Decimal;
  }

  class WorkerProcess {
    const workerId: WorkerId
    const hub: WorkerStreamHub
    const reporter: MasterEventReporter

    constructor (workerId: WorkerId, hub: WorkerStreamHub, reporter: MasterEventReporter)
      ensures this.workerId == workerId && this.hub == hub && this.reporter == reporter
    {
      this.workerId, this.hub, this.reporter := workerId, hub, reporter;
    }

    /** Numbers the event in the hub and reports it under that number; returns whether it was acknowledged. */
    method Publish(s: SessionId, turn: TurnId, leaseEpoch: int, kind: string, data: EventData, now: int)
      returns (ok: bool)
      requires hub.Valid() && reporter.channel.master.Sound() && reporter.channel.worker == workerId
      requires |reporter.channel.script| >= reporter.retryCount
      modifies hub, reporter.channel
      ensures hub.Valid() && reporter.channel.master.Sound()
      ensures var n := |old(hub.Published(s))| + 1;
        && hub.log == old(hub.log)[s := old(hub.Published(s)) + [HubEvent(n, s, kind, data, now)]]
        && (reporter.channel.master, ok)
           == Reported(reporter.channel.cfg, old(reporter.channel.master), workerId,
                       EnvelopeOf(workerId, s, turn, leaseEpoch, n, kind, data),
                       old(reporter.channel.script)[..reporter.retryCount])
    {
      hide SourceId, Reported;
      var event := hub.Publish(s, kind, data, now);
      ok := reporter.Report(Envelope(s, turn, leaseEpoch, SourceId(workerId, event.id), kind, data));
    }
  }

  // ---- the numbers of one process are fresh ----

  /** Every ingest on the session comes from a worker's hub, and from this worker only with an earlier number. */
  ghost predicate FromHubs(step: Step, s: SessionId, worker: WorkerId, n: nat) {
    step.IngestEvent? && step.env.sessionId == s ==>
      exists w: WorkerId, k: nat :: step.env.sourceId == SourceId(w, k) && (w != worker || k < n)
  }

  lemma FromHubsLeaves(step: Step, s: SessionId, worker: WorkerId, n: nat)
    requires FromHubs(step, s, worker, n)
    ensures step.IngestEvent? && step.env.sessionId == s ==> step.env.sourceId != SourceId(worker, n)
  {
    if step.IngestEvent? && step.env.sessionId == s && step.env.sourceId == SourceId(worker, n) {
      var w: WorkerId, k: nat :| step.env.sourceId == SourceId(w, k) && (w != worker || k < n);
      SourceIdInjective(w, k, worker, n);
      assert false;
    }
  }

  lemma StepKeepsUnknown(cfg: Config, sys: System, step: Step, s: SessionId, sourceId: JsString)
    requires sys.Sound() && !Known(sys.events, s, sourceId)
    requires step.IngestEvent? && step.env.sessionId == s ==> step.env.sourceId != sourceId
    ensures !Known(Next(cfg, sys, step).events, s, sourceId)
  {
    if step.IngestEvent? {
      hide LeaseHolds, TurnsAfter, Complete, LatestSeq;
    } else {
      OtherStepsKeepJournal(cfg, sys, step);
      hide Next;
    }
  }

  ghost predicate RunFromHubs(steps: seq<Step>, s: SessionId, worker: WorkerId, n: nat) {
    forall i :: 0 <= i < |steps| ==> FromHubs(steps[i], s, worker, n)
  }

  lemma {:induction false} NumberIsFresh(cfg: Config, run: seq<Step>, s: SessionId, worker: WorkerId, n: nat)
    requires RunFromHubs(run, s, worker, n)
    ensures INIT.Sound() && !Known(Exec(cfg, INIT, run).events, s, SourceId(worker, n))
  {
    hide Next, Known, SourceId, FromHubs;
    if run == [] {
      NothingKnown(s, SourceId(worker, n));
    } else {
      NumberIsFresh(cfg, run[..|run| - 1], s, worker, n);
      FromHubsLeaves(run[|run| - 1], s, worker, n);
      StepKeepsUnknown(cfg, Exec(cfg, INIT, run[..|run| - 1]), run[|run| - 1], s, SourceId(worker, n));
    }
  }

  lemma NothingKnown(s: SessionId, sourceId: JsString)
    ensures INIT.Sound() && !Known(INIT.events, s, sourceId)
  {}

  ghost predicate PlanFromHubs(plan: seq<Attempt>, s: SessionId, worker: WorkerId, n: nat) {
    forall i :: 0 <= i < |plan| ==> RunFromHubs(plan[i].before, s, worker, n)
  }

  lemma PlanLeaves(plan: seq<Attempt>, env: Envelope, worker: WorkerId, n: nat)
    requires PlanFromHubs(plan, env.sessionId, worker, n) && env.sourceId == SourceId(worker, n)
    ensures PlanLeavesSource(plan, env)
  {
    hide SourceId, FromHubs;
    forall i, j | 0 <= i < |plan| && 0 <= j < |plan[i].before| ensures LeavesSource(plan[i].before[j], env) {
      assert RunFromHubs(plan[i].before, env.sessionId, worker, n);
      FromHubsLeaves(plan[i].before[j], env.sessionId, worker, n);
    }
  }

  /** The n-th event of a process that does not restart, reported in any reachable state over any channel:
      exactly once and as sent when acknowledged, at most once otherwise. What makes its source id fresh is
      that the hub gives each number once and that different pairs of worker and number differ. */
  lemma PublishedExactlyOnce(cfg: Config, run: seq<Step>, worker: WorkerId, s: SessionId, turn: TurnId,
                             leaseEpoch: int, n: nat, kind: string, data: EventData, plan: seq<Attempt>)
    requires INIT.Sound() && RunFromHubs(run, s, worker, n) && PlanFromHubs(plan, s, worker, n)
    ensures
      var env := EnvelopeOf(worker, s, turn, leaseEpoch, n, kind, data);
      var sys := Exec(cfg, INIT, run);
      var (end, ok) := Reported(cfg, sys, worker, env, plan);
      var stored := RowsUnder(end.events, env);
      && |stored| <= 1 && (ok ==> |stored| == 1)
      && (forall e :: e in stored ==>
            && e.turnId == turn && e.worker == worker && e.leaseEpoch == leaseEpoch
            && e.kind == kind && e.data == data)
      && Evolves(sys.turns, end.turns)
      && (ok && kind in {IDLE, EXECUTION_ERROR} ==> turn in end.turns && !end.turns[turn].Active())
  {
    var env := EnvelopeOf(worker, s, turn, leaseEpoch, n, kind, data);
    hide Exec, Reported, Known, Carries, SourceId, RunFromHubs, PlanFromHubs, PlanLeavesSource, RowsUnder, Evolves;
    NumberIsFresh(cfg, run, s, worker, n);
    PlanLeaves(plan, env, worker, n);
    ReportedExactlyOnce(cfg, run, worker, env, plan);
    forall e | Carries(e, worker, env)
      ensures e.turnId == turn && e.worker == worker && e.leaseEpoch == leaseEpoch
      ensures e.kind == kind && e.data == data
    {
      CarriesFields(e, worker, env);
    }
  }

  lemma CarriesFields(e: EventRow, worker: WorkerId, env: Envelope)
    requires Carries(e, worker, env)
    ensures e.turnId == env.turnId && e.worker == worker
    ensures e.leaseEpoch == env.leaseEpoch && e.kind == env.kind && e.data == env.data
  {}
}
