/** Turns: idempotent admission, leases and completion. */
module TurnService {
  import opened Prelude
  import opened Records
  import opened Text

  datatype Admission = Admission(sessionId: SessionId, userId: UserId, content: string,
                                 worker: WorkerId, leaseEpoch: int)

  datatype Outcome = Existing | Fresh | Refused(error: ServiceError)

  /** The trimmed key of the client, or the generated one when that is missing or blank. */
  function ClientKey(provided: Option<string>, generated: string): string {
    var key := Trim(provided.GetOr(""));
    if key == "" then generated else key
  }

  lemma KeyMeaning(provided: Option<string>, generated: string)
    ensures ClientKey(provided, generated)
         == if provided.Some? && Trim(provided.value) != "" then Trim(provided.value) else generated
  {
    assert Trim("") == "";
  }

  predicate KeyTaken(turns: Turns, s: SessionId, key: string) {
    exists t :: t in turns && turns[t].sessionId == s && turns[t].clientKey == key
  }

  predicate HasActive(turns: Turns, s: SessionId) {
    exists t :: t in turns && turns[t].sessionId == s && turns[t].Active()
  }

  function AdmissionOutcome(turns: Turns, s: SessionId, id: TurnId, key: string): Outcome {
    if KeyTaken(turns, s, key) then Existing
    else if HasActive(turns, s) then Refused(ActiveTurn)
    else if id in turns then Refused(DuplicateId)
    else Fresh
  }

  function NewTurn(input: Admission, key: string, now: int): TurnRow {
    TurnRow(input.sessionId, input.userId, input.content, key, Pending, input.leaseEpoch, input.worker,
            None, now, now, None)
  }

  function Admitted(turns: Turns, input: Admission, id: TurnId, key: string, now: int): Turns {
    if AdmissionOutcome(turns, input.sessionId, id, key).Fresh? then turns[id := NewTurn(input, key, now)] else turns
  }

  /** The turn is unfinished and was created under this lease. */
  predicate HeldBy(turns: Turns, id: TurnId, worker: WorkerId, leaseEpoch: int) {
    id in turns && turns[id].worker == worker && turns[id].leaseEpoch == leaseEpoch && turns[id].Active()
  }

  function LeasedTurn(turns: Turns, id: TurnId, worker: WorkerId, leaseEpoch: int, now: int): Turns {
    if HeldBy(turns, id, worker, leaseEpoch) then turns[id := turns[id].(status := Leased, updatedAt := now)]
    else turns
  }

  function CompletedTurn(turns: Turns, id: TurnId, worker: WorkerId, leaseEpoch: int, now: int): Turns {
    if HeldBy(turns, id, worker, leaseEpoch) then
      turns[id := turns[id].(status := Completed, updatedAt := now, completedAt := Some(now))]
    else turns
  }

  function FailedTurn(turns: Turns, id: TurnId, worker: WorkerId, leaseEpoch: int, message: string, now: int): Turns {
    if HeldBy(turns, id, worker, leaseEpoch) then
      turns[id := turns[id].(status := Failed, errorMessage := Some(message), updatedAt := now)]
    else turns
  }

  predicate CurrentLease(sessions: Sessions, s: SessionId, worker: WorkerId, leaseEpoch: int) {
    s in sessions.rows && sessions.rows[s].owner == Some(worker) && sessions.rows[s].leaseEpoch == leaseEpoch
  }

  // ---- invariants of the turns table ----

  /** The unique index on (session, client key). */
  ghost predicate UniqueKeys(turns: Turns) {
    forall t, u | t in turns && u in turns ::
      turns[t].sessionId == turns[u].sessionId && turns[t].clientKey == turns[u].clientKey ==> t == u
  }

  ghost predicate OneActive(turns: Turns) {
    forall t, u | t in turns && u in turns ::
      turns[t].sessionId == turns[u].sessionId && turns[t].Active() && turns[u].Active() ==> t == u
  }

  /** Turns never disappear, keep their identity, and stay finished once finished. */
  ghost predicate Evolves(before: Turns, after: Turns) {
    forall t :: t in before ==>
      && t in after
      && after[t].sessionId == before[t].sessionId && after[t].clientKey == before[t].clientKey
      && after[t].worker == before[t].worker && after[t].leaseEpoch == before[t].leaseEpoch
      && after[t].content == before[t].content
      && (!before[t].Active() ==> after[t] == before[t])
  }

  lemma EvolvesIsReflexive(a: Turns)
    ensures Evolves(a, a)
  {}

  lemma EvolvesIsTransitive(a: Turns, b: Turns, c: Turns)
    requires Evolves(a, b) && Evolves(b, c)
    ensures Evolves(a, c)
  {}

  lemma AdmissionKeepsInvariants(turns: Turns, input: Admission, id: TurnId, key: string, now: int)
    requires UniqueKeys(turns) && OneActive(turns)
    ensures var after := Admitted(turns, input, id, key, now);
      UniqueKeys(after) && OneActive(after) && Evolves(turns, after)
  {}

  /** Rewriting an unfinished turn without touching its identity keeps the invariants. */
  lemma SettlingKeepsInvariants(turns: Turns, id: TurnId, row: TurnRow)
    requires UniqueKeys(turns) && OneActive(turns) && id in turns && turns[id].Active()
    requires row.sessionId == turns[id].sessionId && row.clientKey == turns[id].clientKey
    requires row.worker == turns[id].worker && row.leaseEpoch == turns[id].leaseEpoch
    requires row.content == turns[id].content
    ensures UniqueKeys(turns[id := row]) && OneActive(turns[id := row]) && Evolves(turns, turns[id := row])
  {}

  class TurnService {
    const db: Database

    constructor (db: Database)
      ensures this.db == db
    {
      this.db := db;
    }

    /** The unfinished turn of a session. */
    method Active(s: SessionId) returns (r: Option<TurnId>)
      ensures r.None? <==> !HasActive(db.turns, s)
      ensures r.Some? ==>
        && r.value in db.turns && db.turns[r.value].sessionId == s && db.turns[r.value].Active()
        && db.turns[r.value].status in {Pending, Leased}
      ensures r.None? ==>
        forall t :: t in db.turns && db.turns[t].sessionId == s ==> db.turns[t].status in {Completed, Failed}
      ensures r.Some? && OneActive(db.turns)
          ==> forall t :: t in db.turns && db.turns[t].sessionId == s && db.turns[t].Active() ==> t == r.value
    {
      if t :| t in db.turns && db.turns[t].sessionId == s && db.turns[t].Active() {
        return Some(t);
      }
      r := None;
    }

    /** Returns the turn and whether this call created it. */
    method CreateOrGet(input: Admission, clientKey: Option<string>, id: TurnId, generated: string, now: int)
      returns (r: Result<(TurnId, bool), ServiceError>)
      requires UniqueKeys(db.turns) && OneActive(db.turns)
      modifies db`turns
      ensures var key := ClientKey(clientKey, generated);
        && db.turns == Admitted(old(db.turns), input, id, key, now)
        && UniqueKeys(db.turns) && OneActive(db.turns)
        && match AdmissionOutcome(old(db.turns), input.sessionId, id, key)
           case Fresh => r == Ok((id, true))
           case Refused(e) => r == Err(e)
           case Existing =>
             && r.Ok? && !r.value.1 && r.value.0 in db.turns
             && db.turns[r.value.0].sessionId == input.sessionId && db.turns[r.value.0].clientKey == key
      ensures var key := if clientKey.Some? && Trim(clientKey.value) != "" then Trim(clientKey.value) else generated;
        && (forall u | u in old(db.turns) ::
              old(db.turns[u].sessionId) == input.sessionId && old(db.turns[u].clientKey) == key ==> r == Ok((u, false)))
        && (r.Ok? ==>
              && r.value.0 in db.turns && db.turns[r.value.0].sessionId == input.sessionId
              && db.turns[r.value.0].clientKey == key && (r.value.1 <==> r.value.0 !in old(db.turns)))
        && (db.turns == if r.Ok? && r.value.1
            then old(db.turns)[id := TurnRow(input.sessionId, input.userId, input.content, key, Pending,
                                             input.leaseEpoch, input.worker, None, now, now, None)]
            else old(db.turns))
      ensures r == Err(ActiveTurn) ==>
        exists u :: u in db.turns && db.turns[u].sessionId == input.sessionId && db.turns[u].status in {Pending, Leased}
    {
      var key := ClientKey(clientKey, generated);
      KeyMeaning(clientKey, generated);
      AdmissionKeepsInvariants(db.turns, input, id, key, now);
      if t :| t in db.turns && db.turns[t].sessionId == input.sessionId && db.turns[t].clientKey == key {
        return Ok((t, false));
      }
      var active := Active(input.sessionId);
      if active.Some? {
        return Err(ActiveTurn);
      }
      if id in db.turns {
        return Err(DuplicateId);
      }
      db.turns := db.turns[id := NewTurn(input, key, now)];
      r := Ok((id, true));
    }

    method Lease(id: TurnId, worker: WorkerId, leaseEpoch: int, now: int) returns (ok: bool)
      modifies db`turns
      ensures ok == HeldBy(old(db.turns), id, worker, leaseEpoch)
      ensures db.turns == LeasedTurn(old(db.turns), id, worker, leaseEpoch, now)
      ensures ok <==>
        && id in old(db.turns) && old(db.turns[id].status) in {Pending, Leased}
        && old(db.turns[id].worker) == worker && old(db.turns[id].leaseEpoch) == leaseEpoch
      ensures db.turns == if !ok then old(db.turns)
        else old(db.turns)[id := old(db.turns[id]).(status := Leased, updatedAt := now)]
    {
      ok := HeldBy(db.turns, id, worker, leaseEpoch);
      if ok {
        db.turns := db.turns[id := db.turns[id].(status := Leased, updatedAt := now)];
      }
    }

    method Complete(id: TurnId, worker: WorkerId, leaseEpoch: int, now: int) returns (ok: bool)
      modifies db`turns
      ensures ok == HeldBy(old(db.turns), id, worker, leaseEpoch)
      ensures db.turns == CompletedTurn(old(db.turns), id, worker, leaseEpoch, now)
      ensures ok <==>
        && id in old(db.turns) && old(db.turns[id].status) in {Pending, Leased}
        && old(db.turns[id].worker) == worker && old(db.turns[id].leaseEpoch) == leaseEpoch
      ensures db.turns == if !ok then old(db.turns)
        else old(db.turns)[id := old(db.turns[id]).(status := Completed, updatedAt := now, completedAt := Some(now))]
    {
      ok := HeldBy(db.turns, id, worker, leaseEpoch);
      if ok {
        db.turns := db.turns[id := db.turns[id].(status := Completed, updatedAt := now, completedAt := Some(now))];
      }
    }

    method Fail(id: TurnId, worker: WorkerId, leaseEpoch: int, message: string, now: int) returns (ok: bool)
      modifies db`turns
      ensures ok == HeldBy(old(db.turns), id, worker, leaseEpoch)
      ensures db.turns == FailedTurn(old(db.turns), id, worker, leaseEpoch, message, now)
      ensures ok <==>
        && id in old(db.turns) && old(db.turns[id].status) in {Pending, Leased}
        && old(db.turns[id].worker) == worker && old(db.turns[id].leaseEpoch) == leaseEpoch
      ensures db.turns == if !ok then old(db.turns)
        else old(db.turns)[id := old(db.turns[id]).(status := Failed, errorMessage := Some(message), updatedAt := now)]
    {
      ok := HeldBy(db.turns, id, worker, leaseEpoch);
      if ok {
        db.turns := db.turns[id := db.turns[id].(status := Failed, errorMessage := Some(message), updatedAt := now)];
      }
    }
  }
}
