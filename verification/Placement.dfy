/** Choosing a worker for a user: ring candidates, then the least loaded of them. */
module Placement {
  import opened Prelude
  import opened Sequences
  import opened HashString
  import opened Records
  import opened WorkerRegistry
  import CH = ConsistentHash
  import Load

  /** Status ok, and not the excluded worker. */
  function Eligible(workers: Workers, exclude: Option<WorkerId>): WorkerId -> bool {
    (w: WorkerId) => w in workers.rows && workers.rows[w].status.Healthy? && exclude != Some(w)
  }

  function EligibleIds(workers: Workers, exclude: Option<WorkerId>): seq<WorkerId> {
    Filter(workers.order, Eligible(workers, exclude))
  }

  function PlainEntry(w: WorkerId): CH.Entry { CH.Entry(w, None) }

  function RowsOf(workers: Workers, ids: seq<WorkerId>): (rows: seq<WorkerRow>)
    requires forall i :: 0 <= i < |ids| ==> ids[i] in workers.rows
    ensures |rows| == |ids|
  {
    seq(|ids|, i requires 0 <= i < |ids| => workers.rows[ids[i]])
  }

  function RingOf(ids: seq<WorkerId>): seq<CH.RingNode> {
    CH.Ring(Map(PlainEntry, ids), CH.DEFAULT_VNODES)
  }

  function Preferred(workers: Workers, userId: UserId, exclude: Option<WorkerId>, count: int): seq<WorkerId> {
    CH.Candidates(RingOf(EligibleIds(workers, exclude)), userId, count, Eligible(workers, exclude))
  }

  /** The ring candidates, or every eligible worker when there are none. */
  function Pool(workers: Workers, userId: UserId, exclude: Option<WorkerId>, count: int): seq<WorkerId> {
    var preferred := Preferred(workers, userId, exclude, count);
    if preferred == [] then EligibleIds(workers, exclude) else preferred
  }

  lemma EligibleMember(workers: Workers, exclude: Option<WorkerId>, w: WorkerId)
    requires workers.Valid()
    ensures w in EligibleIds(workers, exclude) <==> Eligible(workers, exclude)(w)
  {
    FilterMember(workers.order, Eligible(workers, exclude), w);
  }

  lemma PoolIsEligible(workers: Workers, userId: UserId, exclude: Option<WorkerId>, count: int)
    requires workers.Valid()
    ensures var pool := Pool(workers, userId, exclude, count);
      && (forall i :: 0 <= i < |pool| ==> Eligible(workers, exclude)(pool[i]))
      && (pool == [] <==> forall w :: w in workers.rows ==> !Eligible(workers, exclude)(w))
  {
    hide CH.Candidates, RingOf, EligibleIds;
    var ids := EligibleIds(workers, exclude);
    var preferred := Preferred(workers, userId, exclude, count);
    CH.CandidatesMeaning(RingOf(ids), userId, count, Eligible(workers, exclude));
    assert forall w :: w in preferred ==> Eligible(workers, exclude)(w);
    forall w ensures w in ids <==> Eligible(workers, exclude)(w) {
      EligibleMember(workers, exclude, w);
    }
    assert preferred != [] ==> preferred[0] in preferred;
    assert ids != [] ==> ids[0] in ids;
  }

  /** `SessionService.place`. */
  function Place(workers: Workers, userId: UserId, exclude: Option<WorkerId>, count: int): Option<WorkerId>
    requires workers.Valid()
  {
    hide Pool, Load.Score;
    PoolIsEligible(workers, userId, exclude, count);
    var pool := Pool(workers, userId, exclude, count);
    if pool == [] then None
    else Some(pool[Load.LeastOf(Load.Scores(RowsOf(workers, pool)), |pool|)])
  }

  /** The chosen worker is healthy and not the excluded one; there is none only when nobody else is healthy. */
  lemma PlaceIsEligible(workers: Workers, userId: UserId, exclude: Option<WorkerId>, count: int)
    requires workers.Valid()
    ensures var r := Place(workers, userId, exclude, count);
      && (r.Some? ==> r.value in workers.rows && workers.rows[r.value].status.Healthy? && exclude != r)
      && (r.None? <==> forall w :: w in workers.rows && workers.rows[w].status.Healthy? ==> exclude == Some(w))
  {
    hide Pool, Load.Score;
    PoolIsEligible(workers, userId, exclude, count);
    assert forall w :: (Eligible(workers, exclude)(w)
      <==> w in workers.rows && workers.rows[w].status.Healthy? && exclude != Some(w));
  }

  /** The choice is the earliest minimal score of the pool. */
  lemma PlaceIsLeastLoaded(workers: Workers, userId: UserId, exclude: Option<WorkerId>, count: int, k: nat)
    requires workers.Valid()
    requires var pool := Pool(workers, userId, exclude, count);
      && (forall i :: 0 <= i < |pool| ==> pool[i] in workers.rows)
      && Load.IsLeast(Load.Scores(RowsOf(workers, pool)), k)
    ensures Place(workers, userId, exclude, count) == Some(Pool(workers, userId, exclude, count)[k])
  {
    hide Pool, Load.Score;
    var pool := Pool(workers, userId, exclude, count);
    var scores := Load.Scores(RowsOf(workers, pool));
    Load.LeastIsUnique(scores, k, Load.LeastOf(scores, |pool|));
  }

  /** The choice is one of the first `count` healthy others clockwise from the user on the ring of all workers. */
  lemma PlaceIsACandidate(workers: Workers, userId: UserId, exclude: Option<WorkerId>, count: int)
    requires workers.Valid() && count > 0 && Place(workers, userId, exclude, count).Some?
    ensures Place(workers, userId, exclude, count).value
         in CH.Candidates(CH.Ring(Map(PlainEntry, workers.order), 96), userId, count, Eligible(workers, exclude))
  {
    var w := Place(workers, userId, exclude, count).value;
    PlaceIsEligible(workers, userId, exclude, count);
    assert Eligible(workers, exclude)(w);
    PlacementWalksTheFullRing(workers, userId, exclude, count);
    PreferredWhenEligible(workers, userId, exclude, count, w);
    PlaceIsInPool(workers, userId, exclude, count);
    hide Preferred, Place, CH.Candidates;
  }

  lemma PlaceIsInPool(workers: Workers, userId: UserId, exclude: Option<WorkerId>, count: int)
    requires workers.Valid() && Place(workers, userId, exclude, count).Some?
    ensures Place(workers, userId, exclude, count).value in Pool(workers, userId, exclude, count)
  {
    hide Pool, Load.Score;
    PoolIsEligible(workers, userId, exclude, count);
    var pool := Pool(workers, userId, exclude, count);
    var k := Load.LeastOf(Load.Scores(RowsOf(workers, pool)), |pool|);
    assert pool[k] in pool;
  }

  lemma PreferredWhenEligible(workers: Workers, userId: UserId, exclude: Option<WorkerId>, count: int, w: WorkerId)
    requires workers.Valid() && count > 0 && Eligible(workers, exclude)(w)
    ensures Preferred(workers, userId, exclude, count) != []
  {
    var ids := EligibleIds(workers, exclude);
    EligibleMember(workers, exclude, w);
    hide RingOf, EligibleIds, CH.Candidates, CH.Preference;
    OnRing(ids, w);
    CH.CandidatesMeaning(RingOf(ids), userId, count, Eligible(workers, exclude));
    assert w in CH.Preference(RingOf(ids), userId, Eligible(workers, exclude));
  }

  /** Every worker a ring is built of has a point on it. */
  lemma OnRing(ids: seq<WorkerId>, w: WorkerId)
    requires w in ids
    ensures w in Map(CH.Owner, RingOf(ids))
  {
    var entries := Map(PlainEntry, ids);
    var i :| 0 <= i < |ids| && ids[i] == w;
    assert entries[i] == PlainEntry(ids[i]);
    var n := CH.FirstVnode(entries, CH.DEFAULT_VNODES, i);
    hide CH.Nodes, CH.IsVnode, StableSort;
    CH.NodesMember(entries, CH.DEFAULT_VNODES, n);
    SortMember(CH.Nodes(entries, CH.DEFAULT_VNODES), CH.Point, n);
    var k :| 0 <= k < |RingOf(ids)| && RingOf(ids)[k] == n;
    MapMember(CH.Owner, RingOf(ids), w);
    assert CH.Owner(RingOf(ids)[k]) == w;
  }

  /** No other worker of the pool is lighter than the chosen one in one counter and no heavier in any. */
  lemma PlaceIsNotDominated(workers: Workers, userId: UserId, exclude: Option<WorkerId>, count: int, w: WorkerId)
    requires workers.Valid() && w in Pool(workers, userId, exclude, count)
    ensures var r := Place(workers, userId, exclude, count);
      && r.Some? && r.value in workers.rows && w in workers.rows
      && r.value in Pool(workers, userId, exclude, count)
      && Load.Score(workers.rows[r.value].load) <= Load.Score(workers.rows[w].load)
      && !(Load.NoHeavier(workers.rows[w].load, workers.rows[r.value].load)
           && Load.LighterSomewhere(workers.rows[w].load, workers.rows[r.value].load))
  {
    hide Pool, Load.Score, Load.NoHeavier, Load.LighterSomewhere;
    PoolIsEligible(workers, userId, exclude, count);
    var pool := Pool(workers, userId, exclude, count);
    var j :| 0 <= j < |pool| && pool[j] == w;
    var scores := Load.Scores(RowsOf(workers, pool));
    var k := Load.LeastOf(scores, |pool|);
    assert scores[k] <= scores[j];
    assert scores[j] == Load.Score(workers.rows[w].load) && scores[k] == Load.Score(workers.rows[pool[k]].load);
    if Load.NoHeavier(workers.rows[w].load, workers.rows[pool[k]].load) {
      Load.ScoreGrowsIff(workers.rows[w].load, workers.rows[pool[k]].load);
    }
  }

  lemma EligibleIsRegistered(workers: Workers, exclude: Option<WorkerId>, w: WorkerId)
    requires Eligible(workers, exclude)(w)
    ensures w in workers.rows
  {}

  lemma NobodyEligible(workers: Workers, userId: UserId, exclude: Option<WorkerId>, count: int)
    requires workers.Valid() && EligibleIds(workers, exclude) == []
    ensures Place(workers, userId, exclude, count) == None
  {
    hide Filter, Pool;
    PoolIsEligible(workers, userId, exclude, count);
    forall w ensures !Eligible(workers, exclude)(w) {
      EligibleMember(workers, exclude, w);
    }
  }

  function IsNot(exclude: Option<WorkerId>): WorkerId -> bool {
    (w: WorkerId) => exclude != Some(w)
  }

  lemma EligibleAreHealthyOthers(workers: Workers, exclude: Option<WorkerId>)
    ensures Filter(Filter(workers.order, IsHealthy(workers)), IsNot(exclude)) == EligibleIds(workers, exclude)
  {
    FilterTwice(workers.order, IsHealthy(workers), IsNot(exclude), Eligible(workers, exclude));
  }

  method ChoosePlace(registry: WorkerRegistry, userId: UserId, exclude: Option<WorkerId>, count: int)
    returns (r: Option<WorkerId>)
    requires registry.db.workers.Valid()
    ensures r == Place(registry.db.workers, userId, exclude, count)
  {
    var workers := registry.db.workers;
    EligibleAreHealthyOthers(workers, exclude);
    hide Filter, Map, CH.Candidates, Eligible, Place, IsHealthy;
    PoolIsEligible(workers, userId, exclude, count);
    var healthy := registry.HealthyWorkers();
    healthy := Filter(healthy, IsNot(exclude));
    forall i | 0 <= i < |healthy| ensures healthy[i] in workers.rows {
      EligibleMember(workers, exclude, healthy[i]);
      EligibleIsRegistered(workers, exclude, healthy[i]);
    }
    if healthy == [] {
      NobodyEligible(workers, userId, exclude, count);
      return None;
    }
    var ring := CH.BuildRing(Map(PlainEntry, healthy));
    var pool := CH.FindCandidates(ring, userId, count, Some(Eligible(workers, exclude)));
    assert pool == Preferred(workers, userId, exclude, count);
    forall i | 0 <= i < |pool| ensures pool[i] in workers.rows {
      EligibleIsRegistered(workers, exclude, pool[i]);
    }
    var best := Load.PickLeastLoaded(RowsOf(workers, pool));
    if best.None? {
      pool := healthy;
      best := Load.PickLeastLoaded(RowsOf(workers, pool));
    }
    PlaceIsLeastLoaded(workers, userId, exclude, count, best.value);
    r := Some(pool[best.value]);
  }

  // ---- theorems ----

  lemma EntriesOfKept(ids: seq<WorkerId>, keep: WorkerId -> bool)
    ensures Map(PlainEntry, Filter(ids, keep)) == Filter(Map(PlainEntry, ids), CH.EntryOf(keep))
  {
    FilterMap(ids, PlainEntry, CH.EntryOf(keep));
    forall i | 0 <= i < |ids| ensures Precompose(PlainEntry, CH.EntryOf(keep))(ids[i]) == keep(ids[i]) {
      assert CH.EntryOf(keep)(PlainEntry(ids[i])) == keep(CH.EntryId(PlainEntry(ids[i])));
    }
    FilterCongruent(ids, Precompose(PlainEntry, CH.EntryOf(keep)), keep);
  }

  /** The ring of the eligible workers gives every user the walk of the ring of all registered
      workers that skips the ineligible ones: a worker's failure moves nobody else's points. */
  lemma PlacementWalksTheFullRing(workers: Workers, userId: UserId, exclude: Option<WorkerId>, count: int)
    ensures Preferred(workers, userId, exclude, count)
         == CH.Candidates(RingOf(workers.order), userId, count, Eligible(workers, exclude))
  {
    hide Filter, CH.Clockwise, HashString.Hash;
    var keep := Eligible(workers, exclude);
    var entries := Map(PlainEntry, workers.order);
    var full := CH.Ring(entries, CH.DEFAULT_VNODES);
    var kept := CH.Ring(Filter(entries, CH.EntryOf(keep)), CH.DEFAULT_VNODES);
    EntriesOfKept(workers.order, keep);
    CH.RingOfKeptEntries(entries, CH.DEFAULT_VNODES, keep);
    CH.PreferenceFilter(full, userId, keep);
    CH.PreferenceOfAll(kept, userId, keep);
    var all := CH.Preference(full, userId, keep);
    CH.CandidatesMeaning(full, userId, count, keep);
    assert forall i :: 0 <= i < |all| ==> all[i] in all;
    FilterAll(all, keep);
  }
}
