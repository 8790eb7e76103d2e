/** Prompt idempotency over runs: prompts on one session whose client keys trim to the same text add and dispatch one
    turn. */
module Idempotency {
  import opened Prelude
  import opened Records
  import opened Text
  import opened SessionService
  import opened TurnService
  import opened Protocol
  import opened TurnSafety
  import opened Master

  // ---- one admission ----

  /** A request loaded for the session with that client key. */
  predicate Asks(sys: System, q: nat, s: SessionId, key: Option<string>) {
    q in sys.requests && sys.requests[q].Loaded? && sys.requests[q].session == s && sys.requests[q].clientKey == key
  }

  /** A request is answered by the turn that has its key: the trimmed key of the client or, when that is missing or
      blank, the generated one. It adds a turn, under that key, if and only if no turn of the session has the key, none
      is unfinished and the id is new. Keys that trim differently are not taken for one another. */
  lemma AdmittedByKey(sys: System, q: nat, s: SessionId, provided: Option<string>, t: TurnId, generated: string, now: int)
    requires Asks(sys, q, s, provided)
    ensures
      var r, after := sys.requests[q], AfterTurn(sys, q, t, generated, now);
      var key := if provided.Some? && Trim(provided.value) != "" then Trim(provided.value) else generated;
      if (exists u :: u in sys.turns && sys.turns[u].sessionId == s && sys.turns[u].clientKey == key)
         || (exists u :: u in sys.turns && sys.turns[u].sessionId == s && sys.turns[u].status in {Pending, Leased})
         || t in sys.turns
      then after == sys.(requests := sys.requests - {q})
      else after == sys.(turns := sys.turns[t := TurnRow(s, r.userId, r.content, key, Pending, r.leaseEpoch, r.worker,
                                                         None, now, now, None)],
                         requests := sys.requests[q := Created(t, r.worker, r.leaseEpoch)])
  {
    KeyMeaning(provided, generated);
    hide ClientKey, Trim;
    assert forall u :: u in sys.turns ==> (sys.turns[u].Active() <==> sys.turns[u].status in {Pending, Leased});
  }

  // ---- two prompts with one key ----

  /** The turn of the session under that key. */
  predicate Under(turns: Turns, t: TurnId, s: SessionId, key: string) {
    t in turns && turns[t].sessionId == s && turns[t].clientKey == key
  }

  lemma StaysUnder(before: Turns, after: Turns, t: TurnId, s: SessionId, key: string)
    requires Evolves(before, after) && Under(before, t, s, key)
    ensures Under(after, t, s, key)
  {}

  /** A request with a key that a turn of its session already has only goes away. */
  lemma KnownKeyAddsNothing(sys: System, q: nat, s: SessionId, k: string, t1: TurnId, t: TurnId, generated: string, now: int)
    requires Asks(sys, q, s, Some(k)) && Trim(k) != "" && Under(sys.turns, t1, s, Trim(k))
    ensures AfterTurn(sys, q, t, generated, now) == sys.(requests := sys.requests - {q})
  {
    AdmittedByKey(sys, q, s, Some(k), t, generated, now);
    hide Trim, AfterTurn;
  }

  /** From every reachable state: once a request added a turn under a client key, no later request on the session
      whose key trims to the same text adds or dispatches another, whatever ids are generated for them and whatever
      steps lie in between; the turn keeps its key and is the only one with it. */
  lemma SameKeyAddsOneTurn(cfg: Config, run: seq<Step>, q1: nat, s: SessionId, k1: string, t1: TurnId, g1: string, n1: int,
                           between: seq<Step>, q2: nat, k2: string, t2: TurnId, g2: string, n2: int)
    requires INIT.Sound() && Asks(Exec(cfg, INIT, run), q1, s, Some(k1)) && Trim(k1) != "" && Trim(k2) == Trim(k1)
    requires t1 !in Exec(cfg, INIT, run).turns
    requires var mid := AfterTurn(Exec(cfg, INIT, run), q1, t1, g1, n1);
      t1 in mid.turns && Asks(Exec(cfg, mid, between), q2, s, Some(k2))
    ensures
      var at := Exec(cfg, AfterTurn(Exec(cfg, INIT, run), q1, t1, g1, n1), between);
      && AfterTurn(at, q2, t2, g2, n2) == at.(requests := at.requests - {q2})
      && (forall u :: Under(at.turns, u, s, Trim(k1)) <==> u == t1)
  {
    var sys := Exec(cfg, INIT, run);
    var mid := AfterTurn(sys, q1, t1, g1, n1);
    var at := Exec(cfg, mid, between);
    InitialTurns();
    hide Exec, TurnInvariant, AfterTurn, Trim, Evolves;
    TurnInvariantHolds(cfg, INIT, run);
    CreateKeeps(sys, q1, t1, g1, n1);
    AdmittedByKey(sys, q1, s, Some(k1), t1, g1, n1);
    TurnInvariantHolds(cfg, mid, between);
    StaysUnder(mid.turns, at.turns, t1, s, Trim(k1));
    KnownKeyAddsNothing(at, q2, s, k2, t1, t2, g2, n2);
    OnlyOneUnder(at, t1, s, Trim(k1));
  }

  lemma OnlyOneUnder(sys: System, t: TurnId, s: SessionId, key: string)
    requires TurnInvariant(sys) && Under(sys.turns, t, s, key)
    ensures forall u :: Under(sys.turns, u, s, key) <==> u == t
  {
    hide OneActive, RequestsFit, OneRequestPerTurn, DispatchedOnce, TurnsBounded;
  }

  // ---- the handler, twice ----

  /** The prompt handler on a session where a turn has the key adds and dispatches nothing. */
  lemma PromptOnKnownKey(cfg: Config, sys: System, s: SessionId, userId: UserId, content: string, k: string, t: TurnId,
                         generated: string, now: int, t1: TurnId)
    requires sys.Sound() && sys.requests == map[] && Trim(k) != "" && Under(sys.turns, t1, s, Trim(k))
    ensures var after := Prompt(cfg, sys, s, userId, content, Some(k), t, generated, now);
      after.turns == sys.turns && after.dispatched == sys.dispatched
  {
    PromptMeaning(cfg, sys, s, userId, content, Some(k), t, generated, now);
    KeyMeaning(Some(k), generated);
    assert KeyTaken(sys.turns, s, Trim(k));
    hide Prompt, Prompted, ClientKey, Trim, KeyTaken, HasActive, Admitted;
  }

  /** The turn a prompt dispatches has the trimmed key of the client. */
  lemma DispatchedUnderKey(cfg: Config, sys: System, s: SessionId, userId: UserId, content: string, k: string, t: TurnId,
                           generated: string, now: int)
    requires sys.Sound() && sys.requests == map[] && Trim(k) != ""
    requires Prompt(cfg, sys, s, userId, content, Some(k), t, generated, now).dispatched != sys.dispatched
    ensures Under(Prompt(cfg, sys, s, userId, content, Some(k), t, generated, now).turns, t, s, Trim(k))
  {
    PromptMeaning(cfg, sys, s, userId, content, Some(k), t, generated, now);
    KeyMeaning(Some(k), generated);
    hide Prompt, Prompted, ClientKey, Trim, KeyTaken, HasActive;
  }

  lemma DispatchIsSound(cfg: Config, sys: System, s: SessionId, userId: UserId, content: string, key: Option<string>,
                        t: TurnId, generated: string, now: int)
    requires sys.Sound() && TurnInvariant(sys)
    ensures var after := Prompt(cfg, sys, s, userId, content, key, t, generated, now);
      after.Sound() && TurnInvariant(after)
  {
    PromptIsARun(cfg, sys, s, userId, content, key, t, generated, now);
    hide Prompt, PromptSteps, Exec, TurnInvariant, Evolves;
    TurnInvariantHolds(cfg, sys, PromptSteps(s, userId, content, key, t, generated, now));
  }

  /** The turn dispatched under a key is the only one with it after any further steps. */
  lemma DispatchedStaysUnderKey(cfg: Config, sys: System, s: SessionId, userId: UserId, content: string, k: string,
                                t: TurnId, generated: string, now: int, between: seq<Step>)
    requires sys.Sound() && TurnInvariant(sys) && sys.requests == map[] && Trim(k) != ""
    requires Prompt(cfg, sys, s, userId, content, Some(k), t, generated, now).dispatched != sys.dispatched
    ensures Prompt(cfg, sys, s, userId, content, Some(k), t, generated, now).Sound()
    ensures var at := Exec(cfg, Prompt(cfg, sys, s, userId, content, Some(k), t, generated, now), between);
      Under(at.turns, t, s, Trim(k)) && forall u :: Under(at.turns, u, s, Trim(k)) <==> u == t
  {
    DispatchIsSound(cfg, sys, s, userId, content, Some(k), t, generated, now);
    DispatchedUnderKey(cfg, sys, s, userId, content, k, t, generated, now);
    hide Prompt, Exec, TurnInvariant, Trim, Evolves, Under;
    var first := Prompt(cfg, sys, s, userId, content, Some(k), t, generated, now);
    TurnInvariantHolds(cfg, first, between);
    StaysUnder(first.turns, Exec(cfg, first, between).turns, t, s, Trim(k));
    OnlyOneUnder(Exec(cfg, first, between), t, s, Trim(k));
  }

  /** A prompt that dispatched a turn is sent again with the same key, up to spaces around it, after any steps: the
      second adds and dispatches nothing, and the turn under the key is still the first. */
  lemma RetriedPromptRunsOnce(cfg: Config, sys: System, s: SessionId, user1: UserId, content1: string, k1: string,
                              t1: TurnId, g1: string, n1: int, between: seq<Step>, user2: UserId, content2: string,
                              k2: string, t2: TurnId, g2: string, n2: int)
    requires sys.Sound() && TurnInvariant(sys) && sys.requests == map[] && Trim(k1) != "" && Trim(k2) == Trim(k1)
    requires Prompt(cfg, sys, s, user1, content1, Some(k1), t1, g1, n1).dispatched != sys.dispatched
    ensures Prompt(cfg, sys, s, user1, content1, Some(k1), t1, g1, n1).Sound()
    ensures
      var first := Prompt(cfg, sys, s, user1, content1, Some(k1), t1, g1, n1);
      var at := Exec(cfg, first, between).(requests := map[]);
      var second := Prompt(cfg, at, s, user2, content2, Some(k2), t2, g2, n2);
      && second.turns == at.turns && second.dispatched == at.dispatched
      && (forall u :: Under(at.turns, u, s, Trim(k1)) <==> u == t1)
  {
    DispatchedStaysUnderKey(cfg, sys, s, user1, content1, k1, t1, g1, n1, between);
    hide Prompt, Exec, TurnInvariant, Trim, Under;
    var at := Exec(cfg, Prompt(cfg, sys, s, user1, content1, Some(k1), t1, g1, n1), between).(requests := map[]);
    PromptOnKnownKey(cfg, at, s, user2, content2, k2, t2, g2, n2, t1);
  }
}
