/** Concrete runs: how a turn is stranded, how an ended session is revived, and how a restarted worker's
    events are dropped. */
module Scenarios {
  import opened Prelude
  import opened Sequences
  import opened HashString
  import opened Records
  import opened Placement
  import opened WorkerRegistry
  import opened SessionService
  import opened TurnService
  import opened EventJournal
  import opened Ingest
  import opened Protocol
  import opened Revival
  import opened Quota
  import opened TurnSafety
  import StreamHub
  import Text

  const FIRST: WorkerId := [1]
  const SECOND: WorkerId := [2]
  const USER: UserId := [7]
  const CONFIG := Config(0, 3, 1000)
  const DETAILS := NewSession("tenant", USER, "", "ws", "dir")

  const JOIN_FIRST := Register(Registration(FIRST, "a", None, None, None), 0)
  const OPEN := Create("s", DETAILS, 0)
  const ROUTE := PromptPlace(0, "s", USER, "hi", None, 0)
  const LOAD := PromptLoad(0)
  const ADMIT := PromptCreate(0, "t", "k", 0)
  const LEASE := PromptLease(0, 0)
  const JOIN_SECOND := Register(Registration(SECOND, "b", None, None, None), 5000)
  const SWEEP := RunOnce(5000)
  const REPLY := PromptReply(0, true, "", 5000)

  /** The first worker is the only one. */
  ghost predicate Alone(sys: System) {
    && sys.workers.Valid() && sys.workers.rows.Keys == {FIRST}
    && sys.workers.rows[FIRST].status.Healthy? && sys.workers.rows[FIRST].lastHeartbeatAt == Some(0)
  }

  /** One session, owned as given, with an epoch. */
  ghost predicate Owned(sys: System, owner: WorkerId, epoch: int) {
    && sys.sessions.Valid() && sys.sessions.rows.Keys == {"s"} && sys.sessions.rows["s"].owner == Some(owner)
    && sys.sessions.rows["s"].status != Ended && sys.sessions.rows["s"].leaseEpoch == epoch
  }

  // ---- single steps ----

  lemma FirstJoins()
    ensures INIT.Sound()
    ensures var sys := Next(CONFIG, INIT, JOIN_FIRST);
      Alone(sys) && sys == INIT.(workers := sys.workers)
  {}

  lemma SessionOpens(sys: System)
    requires Alone(sys) && sys.sessions == NO_SESSIONS
    ensures var after := Next(CONFIG, sys, OPEN);
      Owned(after, FIRST, 1) && after == sys.(sessions := after.sessions)
  {
    OpenResult(sys);
    hide Next, Place, Alone;
  }

  lemma OpenResult(sys: System)
    requires Alone(sys) && sys.sessions == NO_SESSIONS
    ensures Next(CONFIG, sys, OPEN) == sys.(sessions := NO_SESSIONS.Put("s", FirstRow(DETAILS, FIRST, 0)))
  {
    FirstIsPlaced(sys.workers);
    OpenInserts(sys.workers, sys.sessions);
    OpenIsCreate(sys);
    hide Inserted, FirstRow, Place, Alone, Next;
  }

  lemma OpenIsCreate(sys: System)
    requires sys.Sound()
    ensures Next(CONFIG, sys, OPEN) == AfterCreate(CONFIG, sys, "s", DETAILS, 0)
  {
    hide AfterCreate;
  }

  lemma OpenInserts(workers: Workers, sessions: Sessions)
    requires workers.Valid() && Place(workers, USER, None, 3) == Some(FIRST) && sessions == NO_SESSIONS
    ensures Inserted(workers, sessions, CONFIG, "s", DETAILS, 0)
         == Ok(sessions.Put("s", FirstRow(DETAILS, FIRST, 0)))
  {
    hide Place, Filter;
  }

  lemma FirstIsPlaced(workers: Workers)
    requires workers.Valid() && workers.rows.Keys == {FIRST} && workers.rows[FIRST].status.Healthy?
    ensures Place(workers, USER, None, 3) == Some(FIRST)
  {
    PlaceIsEligible(workers, USER, None, 3);
    hide Place;
    assert FIRST in workers.rows;
  }

  /** A prompt is routed to the healthy owner and changes nothing else. */
  lemma PromptRoutes(sys: System, q: nat)
    requires sys.Sound() && Owned(sys, FIRST, 1) && q !in sys.requests
    requires FIRST in sys.workers.rows && sys.workers.rows[FIRST].status.Healthy?
    ensures Next(CONFIG, sys, PromptPlace(q, "s", USER, "hi", None, 0))
         == sys.(requests := sys.requests[q := Placed("s", USER, "hi", None, FIRST)])
  {
    hide Place;
    assert "s" in sys.sessions.rows;
    assert OwnerHealthy(sys.workers, sys.sessions.rows["s"]);
  }

  function LeasedRow(epoch: int, key: string, now: int): TurnRow {
    TurnRow("s", USER, "hi", key, Leased, epoch, FIRST, None, now, now, None)
  }

  /** Load, create and lease of a routed request. */
  function AdmitRouted(sys: System, q: nat, t: TurnId, key: string, now: int): System {
    AfterLease(AfterTurn(AfterLoad(sys, q), q, t, key, now), q, now)
  }

  lemma GeneratedKey(key: string)
    ensures ClientKey(None, key) == key
  {
    assert Text.Trim("") == "";
  }

  lemma PromptAdmits(sys: System, q: nat, t: TurnId, key: string, now: int)
    requires q in sys.requests && sys.requests[q] == Placed("s", USER, "hi", None, FIRST)
    requires "s" in sys.sessions.rows && AdmissionOutcome(sys.turns, "s", t, key).Fresh?
    ensures var epoch := sys.sessions.rows["s"].leaseEpoch;
      AdmitRouted(sys, q, t, key, now)
        == sys.(turns := sys.turns[t := LeasedRow(epoch, key, now)],
                requests := sys.requests[q := Dispatched(t, FIRST, epoch)],
                dispatched := sys.dispatched + [t])
  {
    GeneratedKey(key);
    hide ClientKey, KeyTaken, HasActive;
  }

  lemma SecondJoins(sys: System)
    requires sys.Sound() && Alone(sys)
    ensures var after := Next(CONFIG, sys, JOIN_SECOND);
      && after == sys.(workers := after.workers) && after.workers.Valid()
      && NewlyStale(after.workers, 4000)(FIRST) && !NewlyStale(after.workers, 4000)(SECOND)
      && SECOND in after.workers.rows && after.workers.rows[SECOND].status.Healthy?
      && after.workers.rows.Keys == {FIRST, SECOND}
  {
    assert SECOND != FIRST by { assert SECOND[0] == 2 && FIRST[0] == 1; }
    PutKeepsValid(sys.workers, SECOND, Registered(sys.workers, JOIN_SECOND.input, 5000).rows[SECOND]);
  }

  /** The sweep leaves only the second worker to place on. */
  lemma SecondTakesOver(workers: Workers, userId: UserId)
    requires workers.Valid() && workers.rows.Keys == {FIRST, SECOND}
    requires NewlyStale(workers, 4000)(FIRST) && !NewlyStale(workers, 4000)(SECOND)
    requires workers.rows[SECOND].status.Healthy?
    ensures Swept(workers, 4000).Valid() && FIRST in SweptIds(workers, 4000)
    ensures Place(Swept(workers, 4000), userId, Some(FIRST), 3) == Some(SECOND)
  {
    SweptIdsAreTheNewlyStale(workers, 4000);
    hide Filter, Place;
    var workers' := Swept(workers, 4000);
    PlaceIsEligible(workers', userId, Some(FIRST), 3);
    assert workers'.rows.Keys == {FIRST, SECOND};
    assert workers'.rows[SECOND].status.Healthy?;
  }

  lemma SessionMoves(sys: System)
    requires sys.Sound() && Owned(sys, FIRST, 1)
    requires NewlyStale(sys.workers, 4000)(FIRST) && !NewlyStale(sys.workers, 4000)(SECOND)
    requires SECOND in sys.workers.rows && sys.workers.rows[SECOND].status.Healthy?
    requires sys.workers.rows.Keys == {FIRST, SECOND}
    ensures var after := Next(CONFIG, sys, SWEEP);
      && after == sys.(workers := after.workers, sessions := after.sessions)
      && after.Sound() && Owned(after, SECOND, 2)
  {
    assert "s" in sys.sessions.rows;
    SecondTakesOver(sys.workers, sys.sessions.rows["s"].userId);
    RehomeMoves(Swept(sys.workers, 4000), sys.sessions, SweptIds(sys.workers, 4000));
    SweepIsPass(sys);
    hide Swept, SweptIds, NewlyStale, Rehomed, Next, Place;
  }

  lemma SweepIsPass(sys: System)
    requires sys.Sound()
    ensures Next(CONFIG, sys, SWEEP) == AfterPass(CONFIG, sys, 5000)
  {
    hide AfterPass;
  }

  lemma RehomeMoves(workers: Workers, sessions: Sessions, dead: seq<WorkerId>)
    requires workers.Valid() && sessions.Valid() && sessions.rows.Keys == {"s"} && FIRST in dead
    requires "s" in sessions.rows && sessions.rows["s"].owner == Some(FIRST) && !sessions.rows["s"].status.Ended?
    requires Place(workers, sessions.rows["s"].userId, Some(FIRST), 3) == Some(SECOND)
    ensures var after := Rehomed(workers, sessions, CONFIG, dead, 5000);
      && after.Valid() && after.rows.Keys == {"s"}
      && after.rows["s"] == NextLease(sessions.rows["s"], Some(SECOND), Recovering, 5000)
  {
    hide Place;
  }

  // ---- a failover while the worker is being called ----

  const START: seq<Step> := [JOIN_FIRST, OPEN, ROUTE, LOAD, ADMIT, LEASE]

  /** The prompt is admitted at once, and the first worker is swept while its answer is awaited. */
  const FAILOVER: seq<Step> := [JOIN_FIRST, OPEN, ROUTE, LOAD, ADMIT, LEASE, JOIN_SECOND, SWEEP, REPLY]

  /** One worker, one session and one dispatched turn. */
  ghost predicate Serving(sys: System) {
    && Alone(sys) && Owned(sys, FIRST, 1) && sys.events == []
    && sys.requests == map[0 := Dispatched("t", FIRST, 1)]
    && sys.turns == map["t" := LeasedRow(1, "k", 0)]
  }

  lemma OpensAndRoutes()
    ensures INIT.Sound()
    ensures var sys := Exec(CONFIG, INIT, [JOIN_FIRST, OPEN, ROUTE]);
      && Alone(sys) && Owned(sys, FIRST, 1) && sys.turns == map[] && sys.events == []
      && sys.requests == map[0 := Placed("s", USER, "hi", None, FIRST)]
  {
    hide Exec, Next;
    FirstJoins();
    var joined := Next(CONFIG, INIT, JOIN_FIRST);
    SessionOpens(joined);
    PromptRoutes(Next(CONFIG, joined, OPEN), 0);
    ExecOne(CONFIG, INIT, JOIN_FIRST);
    ExecSnoc(CONFIG, INIT, [JOIN_FIRST], OPEN);
    ExecSnoc(CONFIG, INIT, [JOIN_FIRST, OPEN], ROUTE);
    assert [JOIN_FIRST] + [OPEN] == [JOIN_FIRST, OPEN];
    assert [JOIN_FIRST, OPEN] + [ROUTE] == [JOIN_FIRST, OPEN, ROUTE];
  }

  lemma StartServes()
    ensures INIT.Sound() && Serving(Exec(CONFIG, INIT, START))
  {
    hide Exec, Alone, Owned, AdmitRouted;
    OpensAndRoutes();
    var run := [JOIN_FIRST, OPEN, ROUTE];
    RoutedServes(Exec(CONFIG, INIT, run));
    ExecAdmits(CONFIG, run, 0, "t", "k", 0);
    assert run + [LOAD] + [ADMIT] + [LEASE] == START;
  }

  lemma RoutedServes(sys: System)
    requires Alone(sys) && Owned(sys, FIRST, 1) && sys.turns == map[] && sys.events == []
    requires sys.requests == map[0 := Placed("s", USER, "hi", None, FIRST)]
    ensures Serving(AdmitRouted(sys, 0, "t", "k", 0))
  {
    PromptAdmits(sys, 0, "t", "k", 0);
    hide AdmitRouted;
  }

  lemma ExecAdmits(cfg: Config, run: seq<Step>, q: nat, t: TurnId, key: string, now: int)
    requires INIT.Sound()
    ensures Exec(cfg, INIT, run + [PromptLoad(q)] + [PromptCreate(q, t, key, now)] + [PromptLease(q, now)])
         == AdmitRouted(Exec(cfg, INIT, run), q, t, key, now)
  {
    hide Exec, AfterLoad, AfterTurn, AfterLease;
    ExecSnoc(cfg, INIT, run, PromptLoad(q));
    ExecSnoc(cfg, INIT, run + [PromptLoad(q)], PromptCreate(q, t, key, now));
    ExecSnoc(cfg, INIT, run + [PromptLoad(q)] + [PromptCreate(q, t, key, now)], PromptLease(q, now));
  }

  lemma AnswerStrands(sys: System)
    requires sys.Sound() && Owned(sys, SECOND, 2)
    requires sys.requests == map[0 := Dispatched("t", FIRST, 1)] && sys.turns == map["t" := LeasedRow(1, "k", 0)]
    ensures Stranded(Next(CONFIG, sys, REPLY), "t")
  {
    assert SECOND != FIRST by { assert SECOND[0] == 2 && FIRST[0] == 1; }
    assert "s" in sys.sessions.rows;
  }

  /** The failover that the code allows at any time: the turn was admitted at once, under the current
      lease, and is stranded because the session moved while the worker was being called. */
  lemma FailoverDuringCallStrands()
    ensures INIT.Sound() && Stranded(Exec(CONFIG, INIT, FAILOVER), "t")
  {
    hide Exec, Alone, Owned, Stranded, Next, NewlyStale;
    StartServes();
    var serving := Exec(CONFIG, INIT, START);
    SecondJoins(serving);
    ExecSnoc(CONFIG, INIT, START, JOIN_SECOND);
    var joined := Next(CONFIG, serving, JOIN_SECOND);
    OwnedIsAboutSessions(serving, joined);
    SessionMoves(joined);
    ExecSnoc(CONFIG, INIT, START + [JOIN_SECOND], SWEEP);
    AnswerStrands(Next(CONFIG, joined, SWEEP));
    ExecSnoc(CONFIG, INIT, START + [JOIN_SECOND] + [SWEEP], REPLY);
    assert START + [JOIN_SECOND] + [SWEEP] + [REPLY] == FAILOVER;
  }

  lemma OwnedIsAboutSessions(sys: System, after: System)
    requires Owned(sys, FIRST, 1) && after.sessions == sys.sessions
    ensures Owned(after, FIRST, 1) && after.sessions.Valid()
  {}

  // ---- a failover between routing and creating ----

  /** The same calls with the failover between `workerForPrompt` and `createOrGet`. Over the synchronous
      handle those follow one another without a pause; a database that answers later lets a
      scheduler pass in. */
  const RACE: seq<Step> := [JOIN_FIRST, OPEN, ROUTE, JOIN_SECOND, SWEEP, LOAD, ADMIT, LEASE, REPLY]

  lemma RoutedTurnStrands(sys: System)
    requires sys.Sound() && Owned(sys, SECOND, 2)
    requires sys.requests == map[0 := Placed("s", USER, "hi", None, FIRST)] && sys.turns == map[]
    ensures Stranded(Next(CONFIG, AdmitRouted(sys, 0, "t", "k", 0), REPLY), "t")
  {
    assert SECOND != FIRST by { assert SECOND[0] == 2 && FIRST[0] == 1; }
    assert "s" in sys.sessions.rows;
    PromptAdmits(sys, 0, "t", "k", 0);
    hide AdmitRouted;
  }

  /** With service calls interleaved a freshly dispatched turn can be stranded: its worker and
      epoch were never a lease of the session. */
  lemma InterruptedAdmissionStrands()
    ensures INIT.Sound() && Stranded(Exec(CONFIG, INIT, RACE), "t")
  {
    hide Exec, Alone, Owned, Stranded, Next, NewlyStale, AdmitRouted;
    OpensAndRoutes();
    var run := [JOIN_FIRST, OPEN, ROUTE];
    var routed := Exec(CONFIG, INIT, run);
    SecondJoins(routed);
    ExecSnoc(CONFIG, INIT, run, JOIN_SECOND);
    var joined := Next(CONFIG, routed, JOIN_SECOND);
    OwnedIsAboutSessions(routed, joined);
    SessionMoves(joined);
    var moved := run + [JOIN_SECOND] + [SWEEP];
    ExecSnoc(CONFIG, INIT, run + [JOIN_SECOND], SWEEP);
    RoutedTurnStrands(Next(CONFIG, joined, SWEEP));
    ExecAdmits(CONFIG, moved, 0, "t", "k", 0);
    ExecSnoc(CONFIG, INIT, moved + [LOAD] + [ADMIT] + [LEASE], REPLY);
    assert moved + [LOAD] + [ADMIT] + [LEASE] + [REPLY] == RACE;
  }

  // ---- an ended session ----

  const CLOSE := End("s", 0)

  lemma SessionEnds(sys: System)
    requires sys.Sound() && Owned(sys, FIRST, 1)
    ensures var after := Next(CONFIG, sys, CLOSE);
      && after == sys.(sessions := after.sessions) && after.Sound()
      && IsEnded(after, "s") && after.sessions.rows["s"].leaseEpoch == 1 && after.sessions.rows["s"].owner.None?
      && after.sessions.rows.Keys == {"s"}
  {
    EndAdvances(sys.sessions, "s", 0);
    assert "s" in sys.sessions.rows;
  }

  lemma PromptRevives(sys: System)
    requires sys.Sound() && Alone(sys) && IsEnded(sys, "s") && sys.sessions.rows.Keys == {"s"}
    requires sys.sessions.rows["s"].owner.None? && sys.sessions.rows["s"].leaseEpoch == 1 && sys.requests == map[]
    ensures var after := Next(CONFIG, sys, ROUTE);
      Revives(sys, ROUTE, "s") && Owned(after, FIRST, 2)
  {
    assert FIRST in sys.workers.rows && EndedHaveNoOwner(sys.sessions);
    RevivedUnderNextEpoch(CONFIG, sys, ROUTE, "s");
    StepAdvancesSessions(CONFIG, sys, ROUTE);
    SameSessions(sys);
    hide Place, Prompted;
  }

  lemma SameSessions(sys: System)
    requires sys.Sound() && "s" in sys.sessions.rows
    ensures var after := Next(CONFIG, sys, ROUTE);
      after.sessions.rows.Keys == sys.sessions.rows.Keys && after.workers == sys.workers
  {
    hide Place;
  }

  /** A session is created, ended and prompted again: it is owned once more, under the next epoch. */
  lemma PromptRevivesEnded()
    ensures INIT.Sound()
    ensures var sys := Exec(CONFIG, INIT, [JOIN_FIRST, OPEN, CLOSE]);
      && IsEnded(sys, "s") && Revives(sys, ROUTE, "s")
      && Owned(Exec(CONFIG, INIT, [JOIN_FIRST, OPEN, CLOSE, ROUTE]), FIRST, 2)
  {
    hide Exec, Next, Owned, Alone, Revives;
    FirstJoins();
    var joined := Next(CONFIG, INIT, JOIN_FIRST);
    SessionOpens(joined);
    var open := Next(CONFIG, joined, OPEN);
    OwnedIsAboutSessions(open, open);
    SessionEnds(open);
    SameWorkers(joined, Next(CONFIG, open, CLOSE));
    PromptRevives(Next(CONFIG, open, CLOSE));
    ExecOne(CONFIG, INIT, JOIN_FIRST);
    ExecSnoc(CONFIG, INIT, [JOIN_FIRST], OPEN);
    ExecSnoc(CONFIG, INIT, [JOIN_FIRST, OPEN], CLOSE);
    ExecSnoc(CONFIG, INIT, [JOIN_FIRST, OPEN, CLOSE], ROUTE);
    assert [JOIN_FIRST] + [OPEN] == [JOIN_FIRST, OPEN];
    assert [JOIN_FIRST, OPEN] + [CLOSE] == [JOIN_FIRST, OPEN, CLOSE];
    assert [JOIN_FIRST, OPEN, CLOSE] + [ROUTE] == [JOIN_FIRST, OPEN, CLOSE, ROUTE];
  }

  lemma SameWorkers(sys: System, after: System)
    requires Alone(sys) && after.workers == sys.workers
    ensures Alone(after)
  {}

  // ---- a quota of one session ----

  const LIMITED := Config(1, 3, 1000)
  const OPEN_AGAIN := Create("s2", DETAILS, 0)
  const BEYOND: seq<Step> := [JOIN_FIRST, OPEN, CLOSE, OPEN_AGAIN, ROUTE]

  /** A user without an unended session gets one, on the only worker. */
  lemma OpensWithinQuota(sys: System, id: SessionId)
    requires Alone(sys) && sys.sessions.Valid() && id !in sys.sessions.rows && Unended(sys.sessions, USER) == {}
    ensures Next(LIMITED, sys, Create(id, DETAILS, 0))
         == sys.(sessions := sys.sessions.Put(id, FirstRow(DETAILS, FIRST, 0)))
  {
    FirstIsPlaced(sys.workers);
    NoneOpen(sys.sessions);
    InsertsWithinQuota(sys.workers, sys.sessions, id);
    LimitedCreate(sys, id);
    hide Place, Inserted, FirstRow, Unended, OpenCount, Next, Alone;
  }

  lemma LimitedCreate(sys: System, id: SessionId)
    requires sys.Sound()
    ensures Next(LIMITED, sys, Create(id, DETAILS, 0)) == AfterCreate(LIMITED, sys, id, DETAILS, 0)
  {
    hide AfterCreate;
  }

  lemma NoneOpen(sessions: Sessions)
    requires sessions.Valid() && Unended(sessions, USER) == {}
    ensures OpenCount(sessions, USER) == 0
  {
    OpenCountMeaning(sessions, USER);
    hide OpenCount;
    assert Unended(sessions, USER) ==
      set s | s in sessions.rows && sessions.rows[s].userId == USER && sessions.rows[s].status != Ended;
  }

  lemma InsertsWithinQuota(workers: Workers, sessions: Sessions, id: SessionId)
    requires workers.Valid() && Place(workers, USER, None, 3) == Some(FIRST)
    requires id !in sessions.rows && OpenCount(sessions, USER) == 0
    ensures Inserted(workers, sessions, LIMITED, id, DETAILS, 0) == Ok(sessions.Put(id, FirstRow(DETAILS, FIRST, 0)))
  {
    hide Place, OpenCount, FirstRow;
  }

  /** The sessions table once the first session is ended. */
  function OneEnded(): Sessions {
    EndedAt(NO_SESSIONS.Put("s", FirstRow(DETAILS, FIRST, 0)), "s", 0)
  }

  /** And once the second is created. */
  function OneEndedOneOpen(): Sessions {
    OneEnded().Put("s2", FirstRow(DETAILS, FIRST, 0))
  }

  lemma OneEndedMeaning()
    ensures var sessions := OneEnded();
      && sessions.Valid() && sessions.rows.Keys == {"s"} && sessions.rows["s"].userId == USER
      && sessions.rows["s"].status.Ended? && sessions.rows["s"].owner.None?
    ensures Unended(OneEnded(), USER) == {} && Unended(NO_SESSIONS, USER) == {} && NO_SESSIONS.Valid()
  {
    PutKeepsValid(NO_SESSIONS, "s", FirstRow(DETAILS, FIRST, 0));
    EndAdvances(NO_SESSIONS.Put("s", FirstRow(DETAILS, FIRST, 0)), "s", 0);
  }

  lemma OneEndedOneOpenMeaning()
    ensures var sessions := OneEndedOneOpen();
      && sessions.Valid() && "s" in sessions.rows && sessions.rows["s"].userId == USER
      && sessions.rows["s"].status.Ended? && EndedHaveNoOwner(sessions) && Unended(sessions, USER) == {"s2"}
  {
    OneEndedMeaning();
    PutKeepsValid(OneEnded(), "s2", FirstRow(DETAILS, FIRST, 0));
    PutUnended(OneEnded(), "s2", FirstRow(DETAILS, FIRST, 0), USER);
    hide OneEnded, Unended;
  }

  lemma OpensClosesOpens()
    ensures INIT.Sound()
    ensures var sys := Exec(LIMITED, INIT, [JOIN_FIRST, OPEN, CLOSE, OPEN_AGAIN]);
      Alone(sys) && sys.sessions == OneEndedOneOpen() && sys.requests == map[]
  {
    hide Exec, Next, Alone, Unended, FirstRow;
    var joined := Next(LIMITED, INIT, JOIN_FIRST);
    JoinIgnoresQuota();
    OneEndedMeaning();
    OpensWithinQuota(joined, "s");
    var open := Next(LIMITED, joined, OPEN);
    SameWorkers(joined, open);
    AloneIsSound(open);
    var closed := Next(LIMITED, open, CLOSE);
    CloseEnds(open);
    SameWorkers(joined, closed);
    OpensWithinQuota(closed, "s2");
    SameWorkers(joined, Next(LIMITED, closed, OPEN_AGAIN));
    ExecOne(LIMITED, INIT, JOIN_FIRST);
    ExecSnoc(LIMITED, INIT, [JOIN_FIRST], OPEN);
    ExecSnoc(LIMITED, INIT, [JOIN_FIRST, OPEN], CLOSE);
    ExecSnoc(LIMITED, INIT, [JOIN_FIRST, OPEN, CLOSE], OPEN_AGAIN);
    assert [JOIN_FIRST] + [OPEN] == [JOIN_FIRST, OPEN];
    assert [JOIN_FIRST, OPEN] + [CLOSE] == [JOIN_FIRST, OPEN, CLOSE];
    assert [JOIN_FIRST, OPEN, CLOSE] + [OPEN_AGAIN] == [JOIN_FIRST, OPEN, CLOSE, OPEN_AGAIN];
  }

  lemma JoinIgnoresQuota()
    ensures INIT.Sound()
    ensures var sys := Next(LIMITED, INIT, JOIN_FIRST); Alone(sys) && sys == INIT.(workers := sys.workers)
  {}

  lemma AloneIsSound(sys: System)
    requires Alone(sys) && sys.sessions == NO_SESSIONS.Put("s", FirstRow(DETAILS, FIRST, 0))
    ensures sys.Sound()
  {
    PutKeepsValid(NO_SESSIONS, "s", FirstRow(DETAILS, FIRST, 0));
  }

  lemma CloseEnds(sys: System)
    requires sys.Sound()
    ensures Next(LIMITED, sys, CLOSE) == sys.(sessions := EndedAt(sys.sessions, "s", 0))
  {}

  lemma RouteRevives(sys: System)
    requires Alone(sys) && sys.sessions == OneEndedOneOpen() && sys.requests == map[]
    ensures sys.Sound() && Unended(Next(LIMITED, sys, ROUTE).sessions, USER) == {"s", "s2"}
  {
    OneEndedOneOpenMeaning();
    SomeoneIsHealthy(sys);
    PromptAddsUnended(LIMITED, sys, ROUTE, USER);
    RouteIsPlace(sys);
    hide OneEndedOneOpen, Unended, SomeWorkerHealthy, Next, AfterPlace, EndedHaveNoOwner;
  }

  /** With a quota of 1 a user ends a session, creates another and prompts on the first: both are open. */
  lemma RevivalExceedsQuota()
    ensures INIT.Sound()
    ensures Unended(Exec(LIMITED, INIT, BEYOND).sessions, USER) == {"s", "s2"}
    ensures !Within(LIMITED, Exec(LIMITED, INIT, BEYOND), USER)
  {
    hide Exec, Next, Unended, OneEndedOneOpen, Alone;
    OpensClosesOpens();
    var run := [JOIN_FIRST, OPEN, CLOSE, OPEN_AGAIN];
    RouteRevives(Exec(LIMITED, INIT, run));
    ExecSnoc(LIMITED, INIT, run, ROUTE);
    assert run + [ROUTE] == BEYOND;
    assert |{"s", "s2"}| == 2 by { assert |"s"| == 1 && |"s2"| == 2; }
  }

  lemma SomeoneIsHealthy(sys: System)
    requires Alone(sys)
    ensures SomeWorkerHealthy(sys.workers)
  {
    assert FIRST in sys.workers.rows;
  }

  lemma RouteIsPlace(sys: System)
    requires sys.Sound()
    ensures Next(LIMITED, sys, ROUTE) == AfterPlace(LIMITED, sys, 0, "s", USER, "hi", None, 0)
  {
    hide AfterPlace;
  }

  // ---- a worker process that restarts ----

  const ANSWER := PromptReply(0, true, "", 0)
  const FIRST_EVENT := Envelope("s", "t", 1, StreamHub.SourceId(FIRST, 1), IDLE, EventData("one", None))
  const FINISH := IngestEvent(FIRST, FIRST_EVENT, "e", 0)
  const ROUTE_AGAIN := PromptPlace(1, "s", USER, "hi", None, 0)
  const LOAD_AGAIN := PromptLoad(1)
  const ADMIT_AGAIN := PromptCreate(1, "t2", "k2", 0)
  const LEASE_AGAIN := PromptLease(1, 0)

  /** The new process numbers its events from 1 again. */
  const NEXT_EVENT := Envelope("s", "t2", 1, StreamHub.SourceId(FIRST, 1), IDLE, EventData("two", None))

  /** One turn is finished by event 1 of the worker; the worker process restarts and registers again,
      and a second turn is dispatched to it. */
  const RESTARTED: seq<Step> :=
    START + [ANSWER] + [FINISH] + [JOIN_FIRST] + [ROUTE_AGAIN] + [LOAD_AGAIN] + [ADMIT_AGAIN] + [LEASE_AGAIN]

  /** The first turn is done and its event stored. */
  ghost predicate Finished(sys: System) {
    && Alone(sys) && Owned(sys, FIRST, 1) && sys.requests == map[]
    && sys.turns == map["t" := LeasedRow(1, "k", 0).(status := Completed, completedAt := Some(0))]
    && Known(sys.events, "s", StreamHub.SourceId(FIRST, 1))
    && (forall i :: 0 <= i < |sys.events| ==> sys.events[i].turnId == "t")
  }

  lemma EventFinishes(sys: System)
    requires Serving(sys) && sys.Sound()
    ensures Finished(Next(CONFIG, Next(CONFIG, sys, ANSWER), FINISH))
  {
    var idle := sys.(requests := map[]);
    AnswerCloses(sys);
    assert "s" in sys.sessions.rows;
    assert LeaseHolds(idle.sessions, idle.turns, FIRST, FIRST_EVENT);
    var row := RowFor(EventOf(idle.sessions, FIRST, FIRST_EVENT), "e", 1, 0);
    FirstAppend(EventOf(idle.sessions, FIRST, FIRST_EVENT));
    assert FIRST_EVENT.sourceId != [] by { SourceIdIsNotBlank(); }
    hide StreamHub.SourceId, Appended, LeaseHolds;
    assert [row][0] == row;
  }

  lemma AnswerCloses(sys: System)
    requires Serving(sys) && sys.Sound()
    ensures Next(CONFIG, sys, ANSWER) == sys.(requests := map[])
  {}

  lemma SourceIdIsNotBlank()
    ensures StreamHub.SourceId(FIRST, 1) != []
  {}

  lemma FirstAppend(input: NewEvent)
    ensures Appended([], input, "e", 0) == Ok([RowFor(input, "e", 1, 0)])
  {
    assert LatestSeq([], input.sessionId) == 0;
    assert !Known([], input.sessionId, input.sourceId) && !IdUsed([], "e");
    assert [] + [RowFor(input, "e", 1, 0)] == [RowFor(input, "e", 1, 0)];
  }

  lemma FirstRejoins(sys: System)
    requires Finished(sys) && sys.Sound()
    ensures var after := Next(CONFIG, sys, JOIN_FIRST);
      Finished(after) && after.Sound()
  {
    hide Known, StreamHub.SourceId;
  }

  /** The second turn is dispatched under the same lease. */
  lemma ServesAgain(sys: System)
    requires Finished(sys) && sys.Sound()
    ensures var routed := Next(CONFIG, sys, ROUTE_AGAIN);
      AdmitRouted(routed, 1, "t2", "k2", 0)
        == sys.(turns := sys.turns["t2" := LeasedRow(1, "k2", 0)],
                requests := map[1 := Dispatched("t2", FIRST, 1)], dispatched := sys.dispatched + ["t2"])
  {
    PromptRoutes(sys, 1);
    hide AdmitRouted, Next, Known, StreamHub.SourceId;
    var routed := Next(CONFIG, sys, ROUTE_AGAIN);
    assert "s" in routed.sessions.rows;
    PromptAdmits(routed, 1, "t2", "k2", 0);
  }

  lemma EventIsDropped(sys: System)
    requires Finished(sys) && sys.Sound()
    ensures var serving := sys.(turns := sys.turns["t2" := LeasedRow(1, "k2", 0)]);
      Dropped(serving)
  {
    var serving := sys.(turns := sys.turns["t2" := LeasedRow(1, "k2", 0)]);
    SourceIdIsNotBlank();
    assert "s" in sys.sessions.rows;
    assert LeaseHolds(serving.sessions, serving.turns, FIRST, NEXT_EVENT);
    hide StreamHub.SourceId, Known, LeaseHolds;
  }

  /** The next event is acknowledged under the current lease and finishes its turn, but is not stored. */
  ghost predicate Dropped(sys: System) {
    && LeaseHolds(sys.sessions, sys.turns, FIRST, NEXT_EVENT)
    && Ingested(sys.sessions, sys.turns, sys.events, FIRST, NEXT_EVENT, "e2", 0).Ok?
    && (var after := AfterIngest(sys, FIRST, NEXT_EVENT, "e2", 0);
        && after.events == sys.events && after.turns["t2"].status.Completed?
        && forall i :: 0 <= i < |after.events| ==> after.events[i].turnId != "t2")
  }

  lemma DroppedIgnoresRequests(sys: System, after: System)
    requires Dropped(sys) && after == sys.(requests := after.requests, dispatched := after.dispatched)
    ensures Dropped(after)
  {
    hide Ingested, LeaseHolds;
  }

  /** A restarted worker reports its event 1 a second time under a current lease: the event is lost,
      and its turn is finished all the same. */
  lemma RestartedWorkerLosesEvents()
    ensures INIT.Sound() && Dropped(Exec(CONFIG, INIT, RESTARTED))
  {
    hide Exec, Next, Serving, Finished, Dropped, AdmitRouted;
    StartServes();
    var serving := Exec(CONFIG, INIT, START);
    ExecSnoc(CONFIG, INIT, START, ANSWER);
    ExecSnoc(CONFIG, INIT, START + [ANSWER], FINISH);
    EventFinishes(serving);
    var finished := START + [ANSWER] + [FINISH];
    FirstRejoins(Exec(CONFIG, INIT, finished));
    ExecSnoc(CONFIG, INIT, finished, JOIN_FIRST);
    var sys := Exec(CONFIG, INIT, finished + [JOIN_FIRST]);
    ExecSnoc(CONFIG, INIT, finished + [JOIN_FIRST], ROUTE_AGAIN);
    ExecAdmits(CONFIG, finished + [JOIN_FIRST] + [ROUTE_AGAIN], 1, "t2", "k2", 0);
    ServesAgain(sys);
    EventIsDropped(sys);
    DroppedIgnoresRequests(sys.(turns := sys.turns["t2" := LeasedRow(1, "k2", 0)]), Exec(CONFIG, INIT, RESTARTED));
  }
}
