/** Worker registration, heartbeats and the liveness sweep. */
module WorkerRegistry {
  import opened Prelude
  import opened Sequences
  import opened Records

  datatype Registration = Registration(id: WorkerId, address: string, region: Option<string>,
                                       version: Option<string>, capacity: Option<string>)

  datatype Instruction = NoInstruction | Drain | Shutdown | WarpSession(sessionId: SessionId)

  function OrElse<T>(preferred: Option<T>, fallback: Option<T>): Option<T> {
    if preferred.Some? then preferred else fallback
  }

  function Registered(workers: Workers, input: Registration, now: int): Workers {
    var row := if input.id in workers.rows then
        var existing := workers.rows[input.id];
        existing.(address := input.address, region := OrElse(input.region, existing.region),
                  version := OrElse(input.version, existing.version),
                  capacity := input.capacity.GetOr(existing.capacity),
                  status := Healthy, lastHeartbeatAt := Some(now))
      else
        WorkerRow(input.address, input.region, input.version, None, Healthy, input.capacity.GetOr("{}"),
                  EMPTY_LOAD, Some(now), now);
    workers.Put(input.id, row)
  }

  /** A heartbeat heals an unhealthy worker and keeps a draining one draining. */
  function HealedStatus(status: WorkerStatus): WorkerStatus {
    if status.Unhealthy? then Healthy else status
  }

  function Beaten(workers: Workers, id: WorkerId, load: WorkerLoad, configVersion: Option<string>, now: int): Workers {
    if id !in workers.rows then workers else
    var row := workers.rows[id];
    workers.Put(id, row.(load := load, lastHeartbeatAt := Some(now), status := HealedStatus(row.status),
      configVersion := if configVersion.Some? && configVersion.value != "" then configVersion else row.configVersion))
  }

  function WithStatus(workers: Workers, id: WorkerId, status: WorkerStatus): Workers {
    if id !in workers.rows then workers else workers.Put(id, workers.rows[id].(status := status))
  }

  /** Status ok. */
  function IsHealthy(workers: Workers): WorkerId -> bool {
    (w: WorkerId) => w in workers.rows && workers.rows[w].status.Healthy?
  }

  /** No heartbeat since the cutoff. */
  predicate Stale(row: WorkerRow, cutoff: int) {
    row.lastHeartbeatAt.None? || row.lastHeartbeatAt.value < cutoff
  }

  /** Stale, and not already known to be unhealthy. */
  function NewlyStale(workers: Workers, cutoff: int): WorkerId -> bool {
    (w: WorkerId) => w in workers.rows && Stale(workers.rows[w], cutoff) && !workers.rows[w].status.Unhealthy?
  }

  function SweptIds(workers: Workers, cutoff: int): seq<WorkerId> {
    Filter(workers.order, NewlyStale(workers, cutoff))
  }

  function Marked(workers: Workers, ids: seq<WorkerId>): Workers {
    Table(map w | w in workers.rows :: if w in ids then workers.rows[w].(status := Unhealthy) else workers.rows[w],
          workers.order)
  }

  function Swept(workers: Workers, cutoff: int): Workers {
    Marked(workers, SweptIds(workers, cutoff))
  }

  lemma MarkOne(workers: Workers, ids: seq<WorkerId>, w: WorkerId)
    requires w in workers.rows && w !in ids
    ensures Marked(workers, ids + [w]).rows
         == Marked(workers, ids).rows[w := workers.rows[w].(status := Unhealthy)]
  {}

  lemma SweptIdsAreTheNewlyStale(workers: Workers, cutoff: int)
    requires workers.Valid()
    ensures NoDuplicates(SweptIds(workers, cutoff))
    ensures forall w :: w in SweptIds(workers, cutoff) <==> NewlyStale(workers, cutoff)(w)
  {
    FilterKeepsDistinct(workers.order, NewlyStale(workers, cutoff));
    forall w ensures w in SweptIds(workers, cutoff) <==> NewlyStale(workers, cutoff)(w) {
      FilterMember(workers.order, NewlyStale(workers, cutoff), w);
    }
  }

  class WorkerRegistry {
    const db: Database
    var pendingInstructions: map<WorkerId, seq<Instruction>>

    constructor (db: Database)
      ensures this.db == db && pendingInstructions == map[]
    {
      this.db := db;
      pendingInstructions := map[];
    }

    method EnqueueInstruction(id: WorkerId, instruction: Instruction)
      modifies this`pendingInstructions
      ensures id in pendingInstructions && pendingInstructions - {id} == old(pendingInstructions) - {id}
      ensures pendingInstructions[id]
           == (if id in old(pendingInstructions) then old(pendingInstructions[id]) else []) + [instruction]
    {
      var list := if id in pendingInstructions then pendingInstructions[id] else [];
      pendingInstructions := pendingInstructions[id := list + [instruction]];
    }

    method Register(input: Registration, now: int) returns (view: WorkerRow)
      requires db.workers.Valid()
      modifies db`workers
      ensures db.workers == Registered(old(db.workers), input, now) && db.workers.Valid()
      ensures input.id in db.workers.rows && view == db.workers.rows[input.id]
      ensures view.address == input.address && view.status.Healthy? && view.lastHeartbeatAt == Some(now)
      ensures if input.id in old(db.workers.rows) then
          var was := old(db.workers.rows[input.id]);
          && view.region == (if input.region.Some? then input.region else was.region)
          && view.version == (if input.version.Some? then input.version else was.version)
          && view.capacity == (if input.capacity.Some? then input.capacity.value else was.capacity)
          && view.configVersion == was.configVersion && view.load == was.load && view.firstSeenAt == was.firstSeenAt
          && db.workers.order == old(db.workers.order)
        else
          && view.region == input.region && view.version == input.version && view.configVersion.None?
          && view.capacity == (if input.capacity.Some? then input.capacity.value else "{}")
          && view.load == WorkerLoad(Some(0.0), Some(0.0), Some(0.0), Some(0.0), Some(0.0), Some(0.0))
          && view.firstSeenAt == now && db.workers.order == old(db.workers.order) + [input.id]
      ensures db.workers.rows - {input.id} == old(db.workers.rows) - {input.id}
    {
      var row;
      if input.id in db.workers.rows {
        var existing := db.workers.rows[input.id];
        row := existing.(address := input.address, region := OrElse(input.region, existing.region),
                         version := OrElse(input.version, existing.version),
                         capacity := input.capacity.GetOr(existing.capacity));
        row := row.(status := Healthy, lastHeartbeatAt := Some(now));
      } else {
        row := WorkerRow(input.address, input.region, input.version, None, Healthy, input.capacity.GetOr("{}"),
                         EMPTY_LOAD, Some(now), now);
      }
      db.workers := db.workers.Put(input.id, row);
      view := row;
    }

    /** Every queued instruction is handed out once, in the order it was queued. The view returned is
        the stored row, except that a blank configuration version shows in the view and is not stored. */
    method Heartbeat(id: WorkerId, load: WorkerLoad, configVersion: Option<string>, now: int)
      returns (r: Result<(WorkerRow, seq<Instruction>), ServiceError>)
      requires db.workers.Valid()
      modifies this`pendingInstructions, db`workers
      ensures db.workers == Beaten(old(db.workers), id, load, configVersion, now) && db.workers.Valid()
      ensures id !in old(db.workers.rows) ==> r == Err(UnknownWorker) && pendingInstructions == old(pendingInstructions)
      ensures id in old(db.workers.rows) ==> r.Ok? && pendingInstructions == old(pendingInstructions) - {id}
      ensures r.Ok? ==>
        var row, was := db.workers.rows[id], old(db.workers.rows[id]);
        && row.lastHeartbeatAt == Some(now) && row.load == load
        && row.status == (if was.status == Unhealthy then Healthy else was.status)
        && row.configVersion == (if configVersion.Some? && configVersion.value != "" then configVersion
                                 else was.configVersion)
        && row.address == was.address && row.region == was.region && row.version == was.version
        && row.capacity == was.capacity && row.firstSeenAt == was.firstSeenAt
      ensures db.workers.rows - {id} == old(db.workers.rows) - {id} && db.workers.order == old(db.workers.order)
      ensures r.Err? ==> db.workers == old(db.workers)
      ensures r.Ok? && id in old(pendingInstructions) && old(pendingInstructions[id]) != []
          ==> r.value.1 == old(pendingInstructions[id])
      ensures r.Ok? && (id !in old(pendingInstructions) || old(pendingInstructions[id]) == [])
          ==> r.value.1 == [if db.workers.rows[id].status.Draining? then Drain else NoInstruction]
      ensures r.Ok? ==> r.value.0.(configVersion := db.workers.rows[id].configVersion) == db.workers.rows[id]
      ensures r.Ok? ==> (r.value.0 == db.workers.rows[id]
          <==> configVersion != Some("") || old(db.workers.rows)[id].configVersion == Some(""))
    {
      if id !in db.workers.rows {
        return Err(UnknownWorker);
      }
      var row := db.workers.rows[id];
      var status := if row.status.Unhealthy? then Healthy else row.status;
      row := row.(load := load, lastHeartbeatAt := Some(now), status := status);
      var view := row.(configVersion := OrElse(configVersion, row.configVersion));
      if configVersion.Some? && configVersion.value != "" {
        row := row.(configVersion := configVersion);
      }
      db.workers := db.workers.Put(id, row);
      var queued := if id in pendingInstructions then pendingInstructions[id] else [];
      pendingInstructions := pendingInstructions - {id};
      if |queued| > 0 {
        r := Ok((view, queued));
      } else {
        r := Ok((view, [if status.Draining? then Drain else NoInstruction]));
      }
    }

    /** The workers with status ok in table order, each once. */
    method HealthyWorkers() returns (ids: seq<WorkerId>)
      requires db.workers.Valid()
      ensures ids == Filter(db.workers.order, IsHealthy(db.workers)) && NoDuplicates(ids)
      ensures forall w :: w in ids <==> w in db.workers.rows && db.workers.rows[w].status.Healthy?
    {
      hide Filter;
      var order, healthy := db.workers.order, IsHealthy(db.workers);
      ids := [];
      assert order[..0] == [];
      FilterNone(order[..0], healthy);
      for i := 0 to |order|
        invariant ids == Filter(order[..i], healthy)
      {
        assert order[i] in order && order[..i + 1] == order[..i] + [order[i]];
        FilterSnoc(order[..i], order[i], healthy);
        if db.workers.rows[order[i]].status.Healthy? {
          ids := ids + [order[i]];
        }
      }
      assert order[..|order|] == order;
      FilterKeepsDistinct(order, healthy);
      forall w ensures w in ids <==> healthy(w) {
        FilterMember(order, healthy, w);
      }
    }

    /** Marks the newly stale workers unhealthy and returns them in table order. */
    method Sweep(timeoutMs: int, now: int) returns (ids: seq<WorkerId>)
      requires db.workers.Valid()
      modifies db`workers
      ensures db.workers == Swept(old(db.workers), now - timeoutMs) && db.workers.Valid()
      ensures ids == SweptIds(old(db.workers), now - timeoutMs) && NoDuplicates(ids)
      ensures forall w :: w in ids <==>
        && w in old(db.workers.rows) && old(db.workers.rows[w].status) != Unhealthy
        && (var beat := old(db.workers.rows[w].lastHeartbeatAt); beat.Some? ==> beat.value < now - timeoutMs)
      ensures db.workers.rows.Keys == old(db.workers.rows.Keys) && db.workers.order == old(db.workers.order)
      ensures forall w :: w in db.workers.rows ==>
        db.workers.rows[w] == if w in ids then old(db.workers.rows[w]).(status := Unhealthy) else old(db.workers.rows[w])
    {
      SweptIdsAreTheNewlyStale(db.workers, now - timeoutMs);
      hide Filter;
      var cutoff := now - timeoutMs;
      var stale := db.workers;
      SweptSoFar(stale, 0, cutoff);
      ids := [];
      for i := 0 to |stale.order|
        invariant db.workers == Marked(stale, ids)
        invariant ids == Filter(stale.order[..i], NewlyStale(stale, cutoff))
      {
        var w := stale.order[i];
        SweptSoFar(stale, i, cutoff);
        var row := stale.rows[w];
        if Stale(row, cutoff) {
          if row.status != Unhealthy {
            MarkOne(stale, ids, w);
            db.workers := Table(db.workers.rows[w := row.(status := Unhealthy)], db.workers.order);
            ids := ids + [w];
          }
        }
      }
      assert stale.order[..|stale.order|] == stale.order;
    }

    lemma SweptSoFar(stale: Workers, i: nat, cutoff: int)
      requires stale.Valid() && i <= |stale.order|
      ensures i == 0 ==> stale.order[..i] == [] && Filter(stale.order[..i], NewlyStale(stale, cutoff)) == []
      ensures i == 0 ==> Marked(stale, []) == stale
      ensures i < |stale.order| ==> stale.order[i] in stale.rows
      ensures i < |stale.order| ==> stale.order[i] !in Filter(stale.order[..i], NewlyStale(stale, cutoff))
      ensures i < |stale.order| ==>
        (var before := Filter(stale.order[..i], NewlyStale(stale, cutoff));
         var after := Filter(stale.order[..i + 1], NewlyStale(stale, cutoff));
         after == if NewlyStale(stale, cutoff)(stale.order[i]) then before + [stale.order[i]] else before)
    {
      if i < |stale.order| {
        var w := stale.order[i];
        assert w in stale.order;
        assert stale.order[..i + 1] == stale.order[..i] + [w];
        FilterSnoc(stale.order[..i], w, NewlyStale(stale, cutoff));
        FilterMember(stale.order[..i], NewlyStale(stale, cutoff), w);
      }
      assert Marked(stale, []).rows == stale.rows;
    }
  }
}
