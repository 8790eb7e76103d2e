/** Whole-run safety of the lease epochs: a lost lease is lost for good, and its holder never
    writes again. */
module Fencing {
  import opened Prelude
  import opened Records
  import opened TurnService
  import opened EventJournal
  import opened Ingest
  import opened Protocol

  lemma LeaseOrderIsTransitive(a: Sessions, b: Sessions, c: Sessions)
    requires SessionsAdvance(a, b) && SessionsAdvance(b, c)
    ensures SessionsAdvance(a, c)
  {}

  /** Over any run every session stays and its lease only advances. */
  lemma {:induction false} LeasesAdvance(cfg: Config, sys: System, steps: seq<Step>)
    requires sys.Sound()
    ensures SessionsAdvance(sys.sessions, Exec(cfg, sys, steps).sessions)
  {
    hide Next, SessionsAdvance;
    if steps == [] {
      LeaseOrderIsReflexive(sys.sessions);
    } else {
      var front := steps[..|steps| - 1];
      LeasesAdvance(cfg, sys, front);
      StepAdvancesSessions(cfg, Exec(cfg, sys, front), steps[|steps| - 1]);
      LeaseOrderIsTransitive(sys.sessions, Exec(cfg, sys, front).sessions, Exec(cfg, sys, steps).sessions);
    }
  }

  lemma LeaseOrderIsReflexive(a: Sessions)
    ensures SessionsAdvance(a, a)
  {}

  /** At most one worker ever owns a session in a given epoch. */
  lemma OneOwnerPerEpoch(cfg: Config, sys: System, steps: seq<Step>, s: SessionId, w1: WorkerId, w2: WorkerId, epoch: int)
    requires sys.Sound()
    requires CurrentLease(sys.sessions, s, w1, epoch)
    requires CurrentLease(Exec(cfg, sys, steps).sessions, s, w2, epoch)
    ensures w1 == w2
  {
    LeasesAdvance(cfg, sys, steps);
    hide Exec, Next;
  }

  /** The pair is behind the session: an earlier epoch, or this epoch without that owner. */
  ghost predicate Lost(sessions: Sessions, s: SessionId, w: WorkerId, epoch: int) {
    && s in sessions.rows
    && epoch <= sessions.rows[s].leaseEpoch
    && !CurrentLease(sessions, s, w, epoch)
  }

  /** A lost (worker, epoch) pair is never current again, and no event is ever stored under it. */
  lemma {:induction false} LostForGood(cfg: Config, sys: System, steps: seq<Step>, s: SessionId, w: WorkerId, epoch: int)
    requires sys.Sound() && ValidLog(sys.events) && Lost(sys.sessions, s, w, epoch)
    ensures Lost(Exec(cfg, sys, steps).sessions, s, w, epoch)
    ensures ValidLog(Exec(cfg, sys, steps).events) && sys.events <= Exec(cfg, sys, steps).events
    ensures forall i :: |sys.events| <= i < |Exec(cfg, sys, steps).events| ==>
              var e := Exec(cfg, sys, steps).events[i];
              !(e.sessionId == s && e.worker == w && e.leaseEpoch == epoch)
  {
    hide Next, ValidLog;
    if steps != [] {
      var front, step := steps[..|steps| - 1], steps[|steps| - 1];
      var before := Exec(cfg, sys, front);
      LostForGood(cfg, sys, front, s, w, epoch);
      StepAdvancesSessions(cfg, before, step);
      StepExtendsJournal(cfg, before, step);
    }
  }

  /** Once a worker's lease on a session stops being current, no continuation makes it current
      again, accepts an event under it, or stores one. */
  lemma StaleWorkerNeverWrites(cfg: Config, sys: System, first: seq<Step>, second: seq<Step>, worker: WorkerId,
                               env: Envelope, id: string, now: int)
    requires sys.Sound() && ValidLog(sys.events)
    requires CurrentLease(sys.sessions, env.sessionId, worker, env.leaseEpoch)
    ensures
      var mid := Exec(cfg, sys, first);
      var end := Exec(cfg, mid, second);
      !CurrentLease(mid.sessions, env.sessionId, worker, env.leaseEpoch) ==>
      && !CurrentLease(end.sessions, env.sessionId, worker, env.leaseEpoch)
      && Ingested(end.sessions, end.turns, end.events, worker, env, id, now).Err?
      && Next(cfg, end, IngestEvent(worker, env, id, now)) == end
      && mid.events <= end.events
      && (forall i :: |mid.events| <= i < |end.events| ==>
            var e := end.events[i];
            !(e.sessionId == env.sessionId && e.worker == worker && e.leaseEpoch == env.leaseEpoch))
  {
    LeasesAdvance(cfg, sys, first);
    var mid := Exec(cfg, sys, first);
    JournalStaysValid(cfg, sys, first);
    hide ValidLog, Exec, Appended;
    if !CurrentLease(mid.sessions, env.sessionId, worker, env.leaseEpoch) {
      assert Lost(mid.sessions, env.sessionId, worker, env.leaseEpoch);
      LostForGood(cfg, mid, second, env.sessionId, worker, env.leaseEpoch);
    }
  }

  lemma {:induction false} JournalStaysValid(cfg: Config, sys: System, steps: seq<Step>)
    requires sys.Sound() && ValidLog(sys.events)
    ensures ValidLog(Exec(cfg, sys, steps).events) && sys.events <= Exec(cfg, sys, steps).events
  {
    hide Next, ValidLog;
    if steps != [] {
      JournalStaysValid(cfg, sys, steps[..|steps| - 1]);
      StepExtendsJournal(cfg, Exec(cfg, sys, steps[..|steps| - 1]), steps[|steps| - 1]);
    }
  }

  // ---- journal order in every reachable state ----

  /** Every stored event carries its turn's identity, and no epoch beyond its session's. */
  ghost predicate EventsMatchTurns(sys: System) {
    forall i :: 0 <= i < |sys.events| ==>
      var e := sys.events[i];
      && e.turnId in sys.turns
      && sys.turns[e.turnId].sessionId == e.sessionId
      && sys.turns[e.turnId].worker == e.worker
      && sys.turns[e.turnId].leaseEpoch == e.leaseEpoch
  }

  /** Along a session epochs never decrease, and one epoch belongs to one worker. */
  ghost predicate EventsFollowLeases(sys: System) {
    && (forall i :: 0 <= i < |sys.events| ==>
          var e := sys.events[i];
          && e.sessionId in sys.sessions.rows
          && e.leaseEpoch <= sys.sessions.rows[e.sessionId].leaseEpoch
          && (e.leaseEpoch == sys.sessions.rows[e.sessionId].leaseEpoch ==>
                (sys.sessions.rows[e.sessionId].owner in {None, Some(e.worker)})))
    && (forall i, j :: 0 <= i < j < |sys.events| && sys.events[i].sessionId == sys.events[j].sessionId ==>
          && sys.events[i].leaseEpoch <= sys.events[j].leaseEpoch
          && (sys.events[i].leaseEpoch == sys.events[j].leaseEpoch ==> sys.events[i].worker == sys.events[j].worker))
  }

  lemma StepKeepsMatching(before: System, after: System)
    requires EventsMatchTurns(before) && Evolves(before.turns, after.turns)
    requires JournalGrows(before, after.events)
    ensures EventsMatchTurns(after)
  {
    forall i | 0 <= i < |after.events|
      ensures var e := after.events[i];
        && e.turnId in after.turns
        && after.turns[e.turnId].sessionId == e.sessionId
        && after.turns[e.turnId].worker == e.worker
        && after.turns[e.turnId].leaseEpoch == e.leaseEpoch
    {
      if i < |before.events| {
        assert after.events[i] == after.events[..|before.events|][i] == before.events[i];
      }
      assert after.events[i].turnId in before.turns;
    }
  }

  lemma StepKeepsOrder(before: System, after: System)
    requires EventsFollowLeases(before) && SessionsAdvance(before.sessions, after.sessions)
    requires JournalGrows(before, after.events)
    ensures EventsFollowLeases(after)
  {
    forall i | 0 <= i < |before.events| ensures after.events[i] == before.events[i] {
      assert after.events[i] == after.events[..|before.events|][i];
    }
  }

  /** The invariant of the journal over every run from the initial state. */
  ghost predicate JournalInvariant(sys: System) {
    && UniqueKeys(sys.turns) && OneActive(sys.turns)
    && ValidLog(sys.events) && EventsMatchTurns(sys) && EventsFollowLeases(sys)
  }

  /** In every reachable state the journal respects failover. */
  lemma {:induction false} JournalRespectsFailover(cfg: Config, steps: seq<Step>)
    ensures INIT.Sound() && JournalInvariant(Exec(cfg, INIT, steps))
  {
    hide Next, EventsMatchTurns, EventsFollowLeases, ValidLog, UniqueKeys, OneActive;
    if steps == [] {
      InitialJournal();
    } else {
      var front, step := steps[..|steps| - 1], steps[|steps| - 1];
      JournalRespectsFailover(cfg, front);
      var before := Exec(cfg, INIT, front);
      var after := Exec(cfg, INIT, steps);
      StepAdvancesSessions(cfg, before, step);
      StepEvolvesTurns(cfg, before, step);
      StepExtendsJournal(cfg, before, step);
      StepKeepsMatching(before, after);
      StepKeepsOrder(before, after);
    }
  }

  lemma InitialJournal()
    ensures INIT.Sound() && JournalInvariant(INIT)
  {
    EmptyLogIsValid();
  }
}
