/** Load scoring and least-loaded selection. */
module Load {
  import opened Prelude
  import opened Records

  function Min(x: real, y: real): real { if x < y then x else y }
  function Max(x: real, y: real): real { if x > y then x else y }

  function Score(load: WorkerLoad): real {
    var cpu := Min(Max(load.cpuPct.GetOr(0.0) / 100.0, 0.0), 1.0);
    var mem := Min(Max(load.memPct.GetOr(0.0) / 100.0, 0.0), 1.0);
    var drains := Min(load.activeDrains.GetOr(0.0) / 8.0, 1.0);
    var queue := Min((load.pendingSteer.GetOr(0.0) + load.pendingQueue.GetOr(0.0)) / 8.0, 1.0);
    var tools := Min(load.toolProcesses.GetOr(0.0) / 16.0, 1.0);
    0.4 * cpu + 0.15 * mem + 0.3 * drains + 0.1 * queue + 0.05 * tools
  }

  function Scores(items: seq<WorkerRow>): seq<real> {
    seq(|items|, i requires 0 <= i < |items| => Score(items[i].load))
  }

  /** `k` is the earliest index of a minimal score. */
  ghost predicate IsLeast(scores: seq<real>, k: nat) {
    && k < |scores|
    && (forall j :: 0 <= j < |scores| ==> scores[k] <= scores[j])
    && (forall j :: 0 <= j < k ==> scores[k] < scores[j])
  }

  /** Index of the first smallest score among the first `n`. */
  function LeastOf(scores: seq<real>, n: nat): (k: nat)
    requires 0 < n <= |scores|
    ensures k < n
    ensures forall j :: 0 <= j < n ==> scores[k] <= scores[j]
    ensures forall j :: 0 <= j < k ==> scores[k] < scores[j]
  {
    if n == 1 then 0 else
    var k := LeastOf(scores, n - 1);
    if scores[n - 1] < scores[k] then n - 1 else k
  }

  lemma LeastIsUnique(scores: seq<real>, j: nat, k: nat)
    requires IsLeast(scores, j) && IsLeast(scores, k)
    ensures j == k
  {
    assert scores[j] <= scores[k] && scores[k] <= scores[j];
  }

  method PickLeastLoaded(items: seq<WorkerRow>) returns (best: Option<nat>)
    ensures best.None? <==> items == []
    ensures best.Some? ==> IsLeast(Scores(items), best.value)
  {
    hide Score;
    if items == [] {
      return None;
    }
    ghost var scores := Scores(items);
    var index := 0;
    var bestScore := Score(items[0].load);
    for i := 1 to |items|
      invariant index < i && bestScore == scores[index]
      invariant forall j :: 0 <= j < i ==> bestScore <= scores[j]
      invariant forall j :: 0 <= j < index ==> bestScore < scores[j]
    {
      var score := Score(items[i].load);
      if score < bestScore {
        index, bestScore := i, score;
      }
    }
    best := Some(index);
  }

  // ---- what a score means ----

  /** Each group of counters has a share of the score, and the shares add up. */
  lemma SharesAddUp(load: WorkerLoad)
    ensures Score(load) == Score(EMPTY_LOAD.(cpuPct := load.cpuPct))
                         + Score(EMPTY_LOAD.(memPct := load.memPct))
                         + Score(EMPTY_LOAD.(activeDrains := load.activeDrains))
                         + Score(EMPTY_LOAD.(pendingSteer := load.pendingSteer, pendingQueue := load.pendingQueue))
                         + Score(EMPTY_LOAD.(toolProcesses := load.toolProcesses))
  {}

  /** The shares: 0.4 at 100 percent of the processor, 0.15 at 100 percent of the memory, 0.3 at eight drains, 0.1 at
      eight queued items of either kind, 0.05 at sixteen tool processes, in proportion below and no more above. */
  lemma SharesAre(x: real, y: real)
    ensures Score(EMPTY_LOAD.(cpuPct := Some(x))) == (if x <= 0.0 then 0.0 else if x >= 100.0 then 0.4 else 0.004 * x)
    ensures Score(EMPTY_LOAD.(memPct := Some(x))) == (if x <= 0.0 then 0.0 else if x >= 100.0 then 0.15 else 0.0015 * x)
    ensures Score(EMPTY_LOAD.(activeDrains := Some(x))) == (if x >= 8.0 then 0.3 else 0.0375 * x)
    ensures Score(EMPTY_LOAD.(pendingSteer := Some(x), pendingQueue := Some(y)))
         == (if x + y >= 8.0 then 0.1 else 0.0125 * (x + y))
    ensures Score(EMPTY_LOAD.(toolProcesses := Some(x))) == (if x >= 16.0 then 0.05 else 0.003125 * x)
    ensures Score(EMPTY_LOAD) == 0.0 && Score(WorkerLoad(None, None, None, None, None, None)) == 0.0
  {}

  /** A counter that is not reported counts as 0. */
  lemma MissingIsZero(load: WorkerLoad)
    ensures Score(load) == Score(WorkerLoad(Some(load.cpuPct.GetOr(0.0)), Some(load.memPct.GetOr(0.0)),
                                            Some(load.activeDrains.GetOr(0.0)), Some(load.pendingSteer.GetOr(0.0)),
                                            Some(load.pendingQueue.GetOr(0.0)), Some(load.toolProcesses.GetOr(0.0))))
  {}

  function Queued(load: WorkerLoad): real { load.pendingSteer.GetOr(0.0) + load.pendingQueue.GetOr(0.0) }

  /** No more loaded in any counter. */
  predicate NoHeavier(a: WorkerLoad, b: WorkerLoad) {
    && a.cpuPct.GetOr(0.0) <= b.cpuPct.GetOr(0.0) && a.memPct.GetOr(0.0) <= b.memPct.GetOr(0.0)
    && a.activeDrains.GetOr(0.0) <= b.activeDrains.GetOr(0.0)
    && a.pendingSteer.GetOr(0.0) <= b.pendingSteer.GetOr(0.0) && a.pendingQueue.GetOr(0.0) <= b.pendingQueue.GetOr(0.0)
    && a.toolProcesses.GetOr(0.0) <= b.toolProcesses.GetOr(0.0)
  }

  /** Less loaded in some counter that is not saturated. */
  predicate LighterSomewhere(a: WorkerLoad, b: WorkerLoad) {
    || (a.cpuPct.GetOr(0.0) < b.cpuPct.GetOr(0.0) && a.cpuPct.GetOr(0.0) < 100.0 && b.cpuPct.GetOr(0.0) > 0.0)
    || (a.memPct.GetOr(0.0) < b.memPct.GetOr(0.0) && a.memPct.GetOr(0.0) < 100.0 && b.memPct.GetOr(0.0) > 0.0)
    || (a.activeDrains.GetOr(0.0) < b.activeDrains.GetOr(0.0) && a.activeDrains.GetOr(0.0) < 8.0)
    || (Queued(a) < Queued(b) && Queued(a) < 8.0)
    || (a.toolProcesses.GetOr(0.0) < b.toolProcesses.GetOr(0.0) && a.toolProcesses.GetOr(0.0) < 16.0)
  }

  lemma PercentagesGrow(a: Option<real>, b: Option<real>)
    requires a.GetOr(0.0) <= b.GetOr(0.0)
    ensures var strict := a.GetOr(0.0) < b.GetOr(0.0) && a.GetOr(0.0) < 100.0 && b.GetOr(0.0) > 0.0;
      var cpu, cpu' := Score(EMPTY_LOAD.(cpuPct := a)), Score(EMPTY_LOAD.(cpuPct := b));
      var mem, mem' := Score(EMPTY_LOAD.(memPct := a)), Score(EMPTY_LOAD.(memPct := b));
      cpu <= cpu' && (cpu < cpu' <==> strict) && mem <= mem' && (mem < mem' <==> strict)
  {}

  lemma CountersGrow(a: Option<real>, b: Option<real>)
    requires a.GetOr(0.0) <= b.GetOr(0.0)
    ensures var drains, drains' := Score(EMPTY_LOAD.(activeDrains := a)), Score(EMPTY_LOAD.(activeDrains := b));
      drains <= drains' && (drains < drains' <==> a.GetOr(0.0) < b.GetOr(0.0) && a.GetOr(0.0) < 8.0)
    ensures var tools, tools' := Score(EMPTY_LOAD.(toolProcesses := a)), Score(EMPTY_LOAD.(toolProcesses := b));
      tools <= tools' && (tools < tools' <==> a.GetOr(0.0) < b.GetOr(0.0) && a.GetOr(0.0) < 16.0)
  {}

  lemma QueueGrows(a: WorkerLoad, b: WorkerLoad)
    requires Queued(a) <= Queued(b)
    ensures var queue := Score(EMPTY_LOAD.(pendingSteer := a.pendingSteer, pendingQueue := a.pendingQueue));
      var queue' := Score(EMPTY_LOAD.(pendingSteer := b.pendingSteer, pendingQueue := b.pendingQueue));
      queue <= queue' && (queue < queue' <==> Queued(a) < Queued(b) && Queued(a) < 8.0)
  {}

  /** The score grows with every counter, and strictly if and only if one that is not saturated grows. */
  lemma ScoreGrowsIff(a: WorkerLoad, b: WorkerLoad)
    requires NoHeavier(a, b)
    ensures Score(a) <= Score(b)
    ensures Score(a) < Score(b) <==> LighterSomewhere(a, b)
  {
    hide Score;
    SharesAddUp(a);
    SharesAddUp(b);
    PercentagesGrow(a.cpuPct, b.cpuPct);
    PercentagesGrow(a.memPct, b.memPct);
    CountersGrow(a.activeDrains, b.activeDrains);
    CountersGrow(a.toolProcesses, b.toolProcesses);
    QueueGrows(a, b);
  }

  /** With non-negative counters every score lies between idle and saturated. */
  lemma ScoreRange(load: WorkerLoad)
    requires load.activeDrains.GetOr(0.0) >= 0.0 && load.toolProcesses.GetOr(0.0) >= 0.0
    requires load.pendingSteer.GetOr(0.0) >= 0.0 && load.pendingQueue.GetOr(0.0) >= 0.0
    ensures 0.0 <= Score(load) <= 1.0
  {}
}
