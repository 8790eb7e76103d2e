/** Exactly when a fresh turn holds the current lease of its session, and when it is stranded: the
    session must still be routed to the same worker when it is loaded, and no step may take it
    between loading and creating. */
module Admission {
  import opened Prelude
  import opened Sequences
  import opened Records
  import opened Placement
  import opened WorkerRegistry
  import opened SessionService
  import opened TurnService
  import opened Protocol
  import opened Fencing
  import opened LeaseLoss
  import opened TurnSafety

  /** Place, load and create with no other call in between. */
  function AdmitAtOnce(cfg: Config, sys: System, q: nat, s: SessionId, userId: UserId, content: string,
                             key: Option<string>, t: TurnId, generated: string, now: int): System
    requires sys.Sound()
  {
    AfterTurn(AfterLoad(AfterPlace(cfg, sys, q, s, userId, content, key, now), q), q, t, generated, now)
  }

  /** A turn admitted at once holds the current lease of its session, */
  lemma AtomicAdmissionLeads(cfg: Config, sys: System, q: nat, s: SessionId, userId: UserId, content: string,
                             key: Option<string>, t: TurnId, generated: string, now: int)
    requires sys.Sound() && q !in sys.requests
    requires var after := AdmitAtOnce(cfg, sys, q, s, userId, content, key, t, generated, now);
      q in after.requests
    ensures var after := AdmitAtOnce(cfg, sys, q, s, userId, content, key, t, generated, now);
      t in after.turns && after.turns[t].sessionId == s && Leading(after, t)
  {
    hide Place, KeyTaken, HasActive, ClientKey;
  }

  /** and from then on its epoch is the session's only while nobody else owns the session. */
  lemma LeadingTurnStaysBehind(cfg: Config, sys: System, steps: seq<Step>, t: TurnId)
    requires sys.Sound() && TurnInvariant(sys) && t in sys.turns && Leading(sys, t)
    ensures var end := Exec(cfg, sys, steps);
      && t in end.turns && end.turns[t].sessionId in end.sessions.rows
      && (var turn, session := end.turns[t], end.sessions.rows[end.turns[t].sessionId];
          && turn.leaseEpoch <= session.leaseEpoch
          && (turn.leaseEpoch == session.leaseEpoch ==> session.owner in {None, Some(turn.worker)}))
  {
    TurnInvariantHolds(cfg, sys, steps);
    LeasesAdvance(cfg, sys, steps);
    hide Exec, TurnInvariant;
  }

  // ---- admissions and dispatches with other steps in between ----

  lemma LoadedRequest(sys: System, q: nat)
    requires q in sys.requests && sys.requests[q].Placed? && sys.requests[q].session in sys.sessions.rows
    ensures var r, loaded := sys.requests[q], AfterLoad(sys, q);
      && loaded == sys.(requests := loaded.requests) && q in loaded.requests
      && loaded.requests[q] == Loaded(r.session, r.userId, r.content, r.clientKey, r.worker,
                                      sys.sessions.rows[r.session].leaseEpoch)
  {}

  lemma CreatedLeads(sys: System, q: nat, t: TurnId, generated: string, now: int)
    requires q in sys.requests && sys.requests[q].Loaded?
    requires AdmissionOutcome(sys.turns, sys.requests[q].session, t, ClientKey(sys.requests[q].clientKey, generated)).Fresh?
    ensures var r, after := sys.requests[q], AfterTurn(sys, q, t, generated, now);
      && t in after.turns && after.turns[t].sessionId == r.session
      && (Leading(after, t) <==> CurrentLease(sys.sessions, r.session, r.worker, r.leaseEpoch))
  {
    hide ClientKey, KeyTaken, HasActive;
  }

  /** A turn admitted by an interrupted request holds the current lease if and only if the session
      was owned by the routed worker when it was loaded and no step took it before the turn was
      created. The steps before the load and after it may be any that leave the request alone. */
  lemma FreshTurnLeadsIff(cfg: Config, sys: System, q: nat, gap: seq<Step>, between: seq<Step>, t: TurnId,
                          generated: string, now: int)
    requires sys.Sound() && q in sys.requests && sys.requests[q].Placed?
    requires sys.requests[q].session in sys.sessions.rows
    requires LeaveRequest(gap, q) && LeaveRequest(between, q)
    ensures
      var r := sys.requests[q];
      var loaded := AfterLoad(Exec(cfg, sys, gap), q);
      var at := Exec(cfg, loaded, between);
      var after := AfterTurn(at, q, t, generated, now);
      AdmissionOutcome(at.turns, r.session, t, ClientKey(r.clientKey, generated)).Fresh? ==>
        && t in after.turns && r.session in loaded.sessions.rows
        && (Leading(after, t) <==>
              loaded.sessions.rows[r.session].owner == Some(r.worker) && Untaken(cfg, loaded, between, r.session))
  {
    var r := sys.requests[q];
    var mid := Exec(cfg, sys, gap);
    RequestStays(cfg, sys, gap, q);
    LeasesAdvance(cfg, sys, gap);
    hide Exec, AfterLoad, AfterTurn, AdmissionOutcome, ClientKey, Untaken, Leading;
    LoadedRequest(mid, q);
    var loaded := AfterLoad(mid, q);
    RequestStays(cfg, loaded, between, q);
    var at := Exec(cfg, loaded, between);
    var epoch := loaded.sessions.rows[r.session].leaseEpoch;
    LeasesAdvance(cfg, loaded, between);
    if AdmissionOutcome(at.turns, r.session, t, ClientKey(r.clientKey, generated)).Fresh? {
      CreatedLeads(at, q, t, generated, now);
      if loaded.sessions.rows[r.session].owner == Some(r.worker) {
        RunKeepsLeaseIff(cfg, loaded, between, r.session, r.worker, epoch);
      }
    }
  }

  lemma AnsweredRequest(sys: System, q: nat, t: TurnId, message: string, now: int)
    requires TurnInvariant(sys) && q in sys.requests && sys.requests[q].Dispatched? && sys.requests[q].turn == t
    ensures var after := AfterReply(sys, q, true, message, now);
      after == sys.(requests := sys.requests - {q}) && !InFlight(after, t)
  {
    hide UniqueKeys, OneActive, RequestsFit, DispatchedOnce, TurnsBounded;
    var after := AfterReply(sys, q, true, message, now);
    forall p | p in after.requests ensures !WorksFor(after.requests[p], t) {
      assert WorksFor(sys.requests[q], t);
    }
  }

  /** A turn dispatched under the current lease is stranded by the answer of its worker if and only if
      it is unfinished and some step took its session while the worker was being called. */
  lemma DispatchedTurnStrandsIff(cfg: Config, sys: System, q: nat, t: TurnId, between: seq<Step>, message: string,
                                 now: int)
    requires sys.Sound() && TurnInvariant(sys) && t in sys.turns && Leading(sys, t)
    requires q in sys.requests && sys.requests[q].Dispatched? && sys.requests[q].turn == t
    requires LeaveRequest(between, q)
    ensures
      var at := Exec(cfg, sys, between);
      var after := AfterReply(at, q, true, message, now);
      && t in at.turns
      && (Stranded(after, t) <==> at.turns[t].Active() && !Untaken(cfg, sys, between, sys.turns[t].sessionId))
  {
    var turn := sys.turns[t];
    var at := Exec(cfg, sys, between);
    TurnInvariantHolds(cfg, sys, between);
    RequestStays(cfg, sys, between, q);
    LeasesAdvance(cfg, sys, between);
    RunKeepsLeaseIff(cfg, sys, between, turn.sessionId, turn.worker, turn.leaseEpoch);
    AnsweredRequest(at, q, t, message, now);
    hide Exec, AfterReply, Untaken, InFlight, TurnInvariant;
  }
}
