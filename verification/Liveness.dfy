/** Worker liveness over runs: exactly which workers a scheduler pass marks unhealthy. */
module Liveness {
  import opened Prelude
  import opened Sequences
  import opened Records
  import opened WorkerRegistry
  import opened Protocol

  /** The step shows that the worker is alive. */
  predicate Beats(step: Step, w: WorkerId) {
    (step.Register? && step.input.id == w) || (step.Heartbeat? && step.worker == w)
  }

  /** The time of the last sign of life of a registered worker; a heartbeat before the registration does not count. */
  function LastBeat(run: seq<Step>, w: WorkerId): Option<int> {
    if run == [] then None else
    var before, step := LastBeat(run[..|run| - 1], w), run[|run| - 1];
    if step.Register? && step.input.id == w then Some(step.now)
    else if step.Heartbeat? && step.worker == w && before.Some? then Some(step.now)
    else before
  }

  /** The worker is registered exactly when it has a last sign of life, and that is the time on record. */
  ghost predicate OnRecord(workers: Workers, w: WorkerId, beat: Option<int>) {
    && (w in workers.rows <==> beat.Some?)
    && (w in workers.rows ==> workers.rows[w].lastHeartbeatAt == beat)
  }

  lemma StepKeepsRecord(cfg: Config, sys: System, step: Step, w: WorkerId, beat: Option<int>)
    requires sys.Sound() && OnRecord(sys.workers, w, beat)
    ensures OnRecord(Next(cfg, sys, step).workers, w,
                     if step.Register? && step.input.id == w then Some(step.now)
                     else if step.Heartbeat? && step.worker == w && beat.Some? then Some(step.now)
                     else beat)
  {
    hide Filter, SessionService.Rehomed, SessionService.Inserted, SessionService.Prompted;
    if step.PromptLoad? || step.PromptCreate? || step.PromptLease? || step.PromptReply? || step.IngestEvent?
       || step.Restart? {
      TurnStepsAdvance(cfg, sys, step);
      hide Next;
    }
  }

  /** In every reachable state the registry holds the last sign of life of every worker. */
  lemma {:induction false} BeatIsOnRecord(cfg: Config, run: seq<Step>, w: WorkerId)
    ensures INIT.Sound() && OnRecord(Exec(cfg, INIT, run).workers, w, LastBeat(run, w))
  {
    hide Next, OnRecord;
    if run == [] {
      NobodyOnRecord(w);
    } else {
      BeatIsOnRecord(cfg, run[..|run| - 1], w);
      StepKeepsRecord(cfg, Exec(cfg, INIT, run[..|run| - 1]), run[|run| - 1], w, LastBeat(run[..|run| - 1], w));
    }
  }

  lemma NobodyOnRecord(w: WorkerId)
    ensures OnRecord(INIT.workers, w, None)
  {}

  /** The pass finds the worker not unhealthy and leaves it unhealthy. */
  ghost predicate Marks(cfg: Config, sys: System, now: int, w: WorkerId)
    requires sys.Sound()
  {
    && w in sys.workers.rows && sys.workers.rows[w].status != Unhealthy
    && (var after := Next(cfg, sys, RunOnce(now)).workers.rows;
        w in after && after[w].status == Unhealthy)
  }

  lemma PassMarks(cfg: Config, sys: System, now: int, w: WorkerId)
    requires sys.Sound() && w in sys.workers.rows
    ensures var row, after := sys.workers.rows[w], Next(cfg, sys, RunOnce(now)).workers.rows;
      && after.Keys == sys.workers.rows.Keys
      && after[w] == if row.lastHeartbeatAt.Some? && row.lastHeartbeatAt.value >= now - cfg.heartbeatTimeoutMs then row
                     else row.(status := Unhealthy)
  {
    SweptIdsAreTheNewlyStale(sys.workers, now - cfg.heartbeatTimeoutMs);
    hide Filter, SessionService.Rehomed;
  }

  /** A pass marks a worker if and only if it was not unhealthy and its last sign of life is older than the timeout. */
  lemma PassMarksIff(cfg: Config, run: seq<Step>, now: int, w: WorkerId)
    requires INIT.Sound()
    ensures var sys := Exec(cfg, INIT, run);
      Marks(cfg, sys, now, w) <==>
        && w in sys.workers.rows && sys.workers.rows[w].status != Unhealthy
        && LastBeat(run, w).Some? && LastBeat(run, w).value < now - cfg.heartbeatTimeoutMs
  {
    BeatIsOnRecord(cfg, run, w);
    var sys := Exec(cfg, INIT, run);
    if w in sys.workers.rows {
      PassMarks(cfg, sys, now, w);
    }
    hide Next, Exec;
  }

  // ---- with a clock that does not go back ----

  /** The signs of life of the worker carry times that do not decrease. */
  ghost predicate Ordered(run: seq<Step>, w: WorkerId) {
    forall i, j :: 0 <= i < j < |run| && Beats(run[i], w) && Beats(run[j], w) ==> run[i].now <= run[j].now
  }

  lemma {:induction false} LastBeatIsLatest(run: seq<Step>, w: WorkerId)
    requires Ordered(run, w)
    ensures LastBeat(run, w).Some? <==> exists i :: 0 <= i < |run| && run[i].Register? && run[i].input.id == w
    ensures LastBeat(run, w).Some? ==>
      && (exists i :: 0 <= i < |run| && Beats(run[i], w) && run[i].now == LastBeat(run, w).value)
      && (forall i :: 0 <= i < |run| && Beats(run[i], w) ==> run[i].now <= LastBeat(run, w).value)
  {
    if run != [] {
      var front, step := run[..|run| - 1], run[|run| - 1];
      assert forall i :: 0 <= i < |front| ==> front[i] == run[i];
      LastBeatIsLatest(front, w);
      if step.Register? && step.input.id == w {
        assert Beats(run[|front|], w);
      } else if step.Heartbeat? && step.worker == w && LastBeat(front, w).Some? {
        assert Beats(run[|front|], w);
      }
    }
  }

  /** Then a pass marks a registered worker if and only if it was not unhealthy and no registration or heartbeat of it
      falls within the timeout before the pass: a worker that keeps beating is never marked. */
  lemma SilentAreMarked(cfg: Config, run: seq<Step>, now: int, w: WorkerId)
    requires INIT.Sound() && Ordered(run, w)
    ensures var sys := Exec(cfg, INIT, run);
      Marks(cfg, sys, now, w) <==>
        && w in sys.workers.rows && sys.workers.rows[w].status != Unhealthy
        && (forall i :: 0 <= i < |run| && Beats(run[i], w) ==> run[i].now < now - cfg.heartbeatTimeoutMs)
  {
    PassMarksIff(cfg, run, now, w);
    BeatIsOnRecord(cfg, run, w);
    LastBeatIsLatest(run, w);
    hide Exec, Marks, LastBeat;
  }
}
