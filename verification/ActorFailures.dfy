/** The error handlers behind the work queue: a failed task is reported after its promise has settled
    and its `finally` callback has run, outside the queue. */
module ActorFailures {
  import opened Prelude
  import opened SessionActor

  /** The handler of the failed task can run. */
  predicate Reportable(a: Actor, i: nat) {
    i < |a.tasks| && a.tasks[i].status == Settled(Failed) && !a.tasks[i].counted
  }

  predicate OtherRuns(a: Actor, i: nat)
    requires i < |a.tasks|
  {
    exists j :: 0 <= j < |a.tasks| && j != i && a.tasks[j].session == a.tasks[i].session && a.tasks[j].status.Running?
  }

  ghost predicate NoEnqueue(steps: seq<Step>, session: string) {
    forall n :: 0 <= n < |steps| ==> steps[n].Enqueue? ==> steps[n].session != session
  }

  /** The report of task `i` meets another running task of its session. */
  ghost predicate Overlaps(a: Actor, more: seq<Step>, i: nat) {
    var b := Exec(a, more);
    Reportable(b, i) && OtherRuns(b, i)
  }

  ghost predicate HasLater(tasks: seq<Task>, i: nat)
    requires i < |tasks|
  {
    exists j :: i < j < |tasks| && tasks[j].session == tasks[i].session
  }

  // ---- runs from a sound state ----

  lemma {:induction false} RunKeepsSound(a: Actor, more: seq<Step>)
    requires Sound(a)
    ensures Sound(Exec(a, more))
  {
    hide Sound, Next, Enabled;
    if more != [] {
      var front := more[..|more| - 1];
      RunKeepsSound(a, front);
      if Enabled(Exec(a, front), more[|more| - 1]) {
        StepKeepsSound(Exec(a, front), more[|more| - 1]);
      }
    }
  }

  /** Without an enqueue in a session, later tasks belong to other sessions. */
  lemma {:induction false} NoNewTasks(a: Actor, more: seq<Step>, session: string)
    requires NoEnqueue(more, session)
    ensures var b := Exec(a, more);
      && |a.tasks| <= |b.tasks|
      && (forall j :: 0 <= j < |a.tasks| ==> b.tasks[j].session == a.tasks[j].session)
      && (forall j :: |a.tasks| <= j < |b.tasks| ==> b.tasks[j].session != session)
  {
    if more != [] {
      NoNewTasks(a, more[..|more| - 1], session);
    }
  }

  // ---- the two directions ----

  /** The task chained directly to task `i`. */
  lemma Successor(tasks: seq<Task>, i: nat, j: nat) returns (k: nat)
    requires Chained(tasks) && i < j < |tasks| && tasks[j].session == tasks[i].session
    ensures i < k < |tasks| && tasks[k].session == tasks[i].session && tasks[k].after == Some(i)
    decreases j
  {
    if tasks[j].after == Some(i) {
      k := j;
    } else {
      k := Successor(tasks, i, tasks[j].after.value);
    }
  }

  lemma SuccessorWaits(tasks: seq<Task>, i: nat, k: nat)
    requires Ordered(tasks) && i < k < |tasks| && tasks[k].after == Some(i) && tasks[i].status.Running?
    ensures tasks[k].status.Waiting? && tasks[i].counted
  {}

  lemma FailThenStart(a: Actor, i: nat, k: nat)
    requires i < k < |a.tasks| && a.tasks[k].session == a.tasks[i].session && a.tasks[k].after == Some(i)
    requires a.tasks[i].status.Running? && a.tasks[i].counted && a.tasks[k].status.Waiting?
    ensures Overlaps(a, [Settle(i, false), Finally(i), Start(k)], i)
  {
    var failed := Next(a, Settle(i, false));
    var released := Next(failed, Finally(i));
    var started := Next(released, Start(k));
    assert Reportable(started, i) && started.tasks[k].status.Running? && OtherRuns(started, i);
    ExecThree(a, Settle(i, false), Finally(i), Start(k));
  }

  lemma ExecThree(a: Actor, x: Step, y: Step, z: Step)
    requires Enabled(a, x) && Enabled(Next(a, x), y) && Enabled(Next(Next(a, x), y), z)
    ensures Exec(a, [x, y, z]) == Next(Next(Next(a, x), y), z)
  {
    hide Next, Enabled;
    assert [x, y, z][..2] == [x, y] && [x, y][..1] == [x] && [x][..0] == [];
    assert Exec(a, []) == a;
    assert Exec(a, [x]) == Next(a, x);
    assert Exec(a, [x, y]) == Next(Next(a, x), y);
  }

  lemma OverlapNeedsLater(a: Actor, more: seq<Step>, i: nat)
    requires Sound(a) && i < |a.tasks| && NoEnqueue(more, a.tasks[i].session) && Overlaps(a, more, i)
    ensures HasLater(a.tasks, i)
  {
    var b := Exec(a, more);
    RunKeepsSound(a, more);
    NoNewTasks(a, more, a.tasks[i].session);
    hide Exec, Pending;
    var j :| 0 <= j < |b.tasks| && j != i && b.tasks[j].session == b.tasks[i].session && b.tasks[j].status.Running?;
    if j < i {
      EarlierHaveSettled(b.tasks, j, i);
    }
    assert i < j < |a.tasks|;
  }

  lemma LaterOverlaps(a: Actor, i: nat)
    requires Sound(a) && i < |a.tasks| && a.tasks[i].status.Running? && HasLater(a.tasks, i)
    ensures exists more :: NoEnqueue(more, a.tasks[i].session) && Overlaps(a, more, i)
  {
    hide Overlaps, Chained, Ordered, TailsAreLast, ActiveCounts, StartedInOrder;
    var j :| i < j < |a.tasks| && a.tasks[j].session == a.tasks[i].session;
    var k := Successor(a.tasks, i, j);
    SuccessorWaits(a.tasks, i, k);
    FailThenStart(a, i, k);
    var more := [Settle(i, false), Finally(i), Start(k)];
    assert NoEnqueue(more, a.tasks[i].session);
  }

  /** While task `i` runs: its failure can be reported while another task of its session runs, with no
      further task enqueued there, if and only if one is enqueued behind it already. */
  lemma ReportsOverlapIff(steps: seq<Step>, i: nat)
    requires var a := Exec(EMPTY, steps); i < |a.tasks| && a.tasks[i].status.Running?
    ensures var a := Exec(EMPTY, steps);
      (exists more :: NoEnqueue(more, a.tasks[i].session) && Overlaps(a, more, i)) <==> HasLater(a.tasks, i)
  {
    var a := Exec(EMPTY, steps);
    RunsAreSound(steps);
    hide *;
    if HasLater(a.tasks, i) {
      LaterOverlaps(a, i);
    }
    if more :| NoEnqueue(more, a.tasks[i].session) && Overlaps(a, more, i) {
      OverlapNeedsLater(a, more, i);
    }
  }
}
