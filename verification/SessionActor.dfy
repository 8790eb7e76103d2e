/** The per-session work queue of a worker: chained promises, a busy counter and a generation that
    invalidates observations. */
module SessionActor {
  import opened Prelude

  /** How a promise returned by the queue settled. */
  datatype Outcome = Failed | Value | Withheld

  datatype Status = Waiting | Running | Settled(outcome: Outcome)

  /** One enqueued task. `after` is the promise it is chained to; `observed` is the generation an
      observation was enqueued with; `counted` holds until the `finally` callback has run. */
  datatype Task = Task(session: string, after: Option<nat>, observed: Option<int>,
                       status: Status, counted: bool)

  /** The three maps of the actor, the promises they refer to and the order in which tasks started. */
  datatype Actor = Actor(tails: map<string, nat>, active: map<string, int>,
                         generations: map<string, int>, tasks: seq<Task>, started: seq<nat>)
  {
    function Generation(session: string): int {
      if session in generations then generations[session] else 0
    }

    predicate IsBusy(session: string) {
      (if session in active then active[session] else 0) > 0
    }
  }

  const EMPTY := Actor(map[], map[], map[], [], [])

  /** What the code and the event loop can do. `Enqueue` with a generation is `enqueueObservation`;
      the last three are the callbacks the promise chain runs later. */
  datatype Step =
    | Enqueue(session: string, observed: Option<int>)
    | BeginResume(session: string)
    | Start(task: nat)
    | Settle(task: nat, succeeds: bool)
    | Finally(task: nat)

  predicate SettledAt(tasks: seq<Task>, after: Option<nat>) {
    after.None? || (after.value < |tasks| && tasks[after.value].status.Settled?)
  }

  /** The event loop runs a callback only when its promise has settled. */
  predicate Enabled(a: Actor, step: Step) {
    match step
    case Enqueue(_, _) => true
    case BeginResume(_) => true
    case Start(i) => i < |a.tasks| && a.tasks[i].status.Waiting? && SettledAt(a.tasks, a.tasks[i].after)
    case Settle(i, _) => i < |a.tasks| && a.tasks[i].status.Running?
    case Finally(i) => i < |a.tasks| && a.tasks[i].status.Settled? && a.tasks[i].counted
  }

  function Enqueued(a: Actor, session: string, observed: Option<int>): Actor {
    var previous := if session in a.tails then Some(a.tails[session]) else None;
    var count := if session in a.active then a.active[session] else 0;
    a.(tails := a.tails[session := |a.tasks|], active := a.active[session := count + 1],
       tasks := a.tasks + [Task(session, previous, observed, Waiting, true)])
  }

  function OutcomeOf(a: Actor, t: Task, succeeds: bool): Outcome {
    if !succeeds then Failed
    else if t.observed.Some? && a.Generation(t.session) != t.observed.value then Withheld
    else Value
  }

  function Released(a: Actor, i: nat): Actor
    requires i < |a.tasks|
  {
    var session := a.tasks[i].session;
    var remaining := (if session in a.active then a.active[session] else 1) - 1;
    a.(active := if remaining <= 0 then a.active - {session} else a.active[session := remaining],
       tasks := a.tasks[i := a.tasks[i].(counted := false)])
  }

  function Next(a: Actor, step: Step): Actor
    requires Enabled(a, step)
  {
    match step
    case Enqueue(session, observed) => Enqueued(a, session, observed)
    case BeginResume(session) => a.(generations := a.generations[session := a.Generation(session) + 1])
    case Start(i) => a.(tasks := a.tasks[i := a.tasks[i].(status := Running)], started := a.started + [i])
    case Settle(i, succeeds) =>
      a.(tasks := a.tasks[i := a.tasks[i].(status := Settled(OutcomeOf(a, a.tasks[i], succeeds)))])
    case Finally(i) => Released(a, i)
  }

  /** A run; callbacks whose promise has not settled are skipped. */
  function Exec(a: Actor, steps: seq<Step>): Actor {
    if steps == [] then a else
    var before := Exec(a, steps[..|steps| - 1]);
    if Enabled(before, steps[|steps| - 1]) then Next(before, steps[|steps| - 1]) else before
  }

  // ---- the class ----

  class SessionActor {
    var tails: map<string, nat>
    var active: map<string, int>
    var generations: map<string, int>
    /** The promises, and the order in which their tasks started. */
    var tasks: seq<Task>
    var started: seq<nat>

    ghost function State(): Actor
      reads this
    {
      Actor(tails, active, generations, tasks, started)
    }

    constructor ()
      ensures State() == EMPTY
    {
      tails, active, generations, tasks, started := map[], map[], map[], [], [];
    }

    function Generation(session: string): (g: int)
      reads this
      ensures g == State().Generation(session)
    {
      if session in generations then generations[session] else 0
    }

    predicate IsBusy(session: string)
      reads this
      ensures IsBusy(session) == State().IsBusy(session)
    {
      (if session in active then active[session] else 0) > 0
    }

    method BeginResumeOf(session: string) returns (next: int)
      modifies this
      ensures State() == Next(old(State()), BeginResume(session))
      ensures next == old(Generation(session)) + 1 == Generation(session)
    {
      next := Generation(session) + 1;
      generations := generations[session := next];
    }

    method EnqueueWork(session: string) returns (task: nat)
      modifies this
      ensures State() == Next(old(State()), Enqueue(session, None)) && task == old(|tasks|)
    {
      task := Chain(session, None);
    }

    method EnqueueObservation(session: string, generation: int) returns (task: nat)
      modifies this
      ensures State() == Next(old(State()), Enqueue(session, Some(generation))) && task == old(|tasks|)
    {
      task := Chain(session, Some(generation));
    }

    method Chain(session: string, observed: Option<int>) returns (task: nat)
      modifies this
      ensures State() == Enqueued(old(State()), session, observed) && task == old(|tasks|)
    {
      var previous: Option<nat> := None;
      if session in tails { previous := Some(tails[session]); }
      var count := if session in active then active[session] else 0;
      active := active[session := count + 1];
      task := |tasks|;
      tasks := tasks + [Task(session, previous, observed, Waiting, true)];
      tails := tails[session := task];
    }

    /** The event loop runs the task once the promise before it has settled. */
    method Run(task: nat)
      requires Enabled(State(), Start(task))
      modifies this
      ensures State() == Next(old(State()), Start(task))
    {
      tasks := tasks[task := tasks[task].(status := Running)];
      started := started + [task];
    }

    /** The task's own promise settles; an observation is compared with the generation first. */
    method SettleTask(task: nat, succeeds: bool)
      requires Enabled(State(), Settle(task, succeeds))
      modifies this
      ensures State() == Next(old(State()), Settle(task, succeeds))
    {
      var t := tasks[task];
      var outcome := Failed;
      if succeeds {
        outcome := Value;
        if t.observed.Some? && Generation(t.session) != t.observed.value { outcome := Withheld; }
      }
      tasks := tasks[task := t.(status := Settled(outcome))];
    }

    method RunFinally(task: nat)
      requires Enabled(State(), Finally(task))
      modifies this
      ensures State() == Next(old(State()), Finally(task))
    {
      var session := tasks[task].session;
      var remaining := (if session in active then active[session] else 1) - 1;
      if remaining <= 0 {
        active := active - {session};
      } else {
        active := active[session := remaining];
      }
      tasks := tasks[task := tasks[task].(counted := false)];
    }
  }

  // ---- what every reachable state satisfies ----

  /** Tasks of a session whose `finally` callback has not run. */
  function Pending(tasks: seq<Task>, session: string): nat {
    if tasks == [] then 0 else
    Pending(tasks[..|tasks| - 1], session)
    + (if tasks[|tasks| - 1].session == session && tasks[|tasks| - 1].counted then 1 else 0)
  }

  /** Every task is chained to the last earlier task of its session. */
  ghost predicate Chained(tasks: seq<Task>) {
    && (forall i :: 0 <= i < |tasks| && tasks[i].after.Some? ==>
          tasks[i].after.value < i && tasks[tasks[i].after.value].session == tasks[i].session)
    && (forall i, j :: 0 <= j < i < |tasks| && tasks[j].session == tasks[i].session ==>
          tasks[i].after.Some? && j <= tasks[i].after.value)
  }

  ghost predicate TailsAreLast(a: Actor) {
    && (forall x :: x in a.tails ==> a.tails[x] < |a.tasks| && a.tasks[a.tails[x]].session == x)
    && (forall i :: 0 <= i < |a.tasks| ==> a.tasks[i].session in a.tails && i <= a.tails[a.tasks[i].session])
  }

  ghost predicate ActiveCounts(a: Actor) {
    forall x :: (if x in a.active then a.active[x] > 0 && a.active[x] == Pending(a.tasks, x)
                 else Pending(a.tasks, x) == 0)
  }

  ghost predicate Ordered(tasks: seq<Task>) {
    forall i :: 0 <= i < |tasks| ==>
      && (!tasks[i].status.Waiting? ==> SettledAt(tasks, tasks[i].after))
      && (!tasks[i].counted ==> tasks[i].status.Settled?)
  }

  ghost predicate StartedInOrder(a: Actor) {
    && (forall k :: 0 <= k < |a.started| ==>
          a.started[k] < |a.tasks| && !a.tasks[a.started[k]].status.Waiting?)
    && (forall i :: 0 <= i < |a.tasks| && !a.tasks[i].status.Waiting? ==> i in a.started)
    && (forall k, l :: 0 <= k < l < |a.started| ==>
          a.tasks[a.started[k]].session == a.tasks[a.started[l]].session ==> a.started[k] < a.started[l])
  }

  ghost predicate Sound(a: Actor) {
    Chained(a.tasks) && TailsAreLast(a) && ActiveCounts(a) && Ordered(a.tasks) && StartedInOrder(a)
  }

  lemma PendingSnoc(tasks: seq<Task>, t: Task, session: string)
    ensures Pending(tasks + [t], session)
         == Pending(tasks, session) + (if t.session == session && t.counted then 1 else 0)
  {
    assert (tasks + [t])[..|tasks + [t]| - 1] == tasks;
  }

  lemma {:induction false} PendingUpdate(tasks: seq<Task>, i: nat, t: Task, session: string)
    requires i < |tasks| && t.session == tasks[i].session
    ensures Pending(tasks[i := t], session)
         == Pending(tasks, session)
          - (if t.session == session && tasks[i].counted then 1 else 0)
          + (if t.session == session && t.counted then 1 else 0)
  {
    var n := |tasks| - 1;
    if i == n {
      assert tasks[i := t][..n] == tasks[..n];
    } else {
      PendingUpdate(tasks[..n], i, t, session);
      assert tasks[i := t][..n] == tasks[..n][i := t];
    }
  }

  lemma {:induction false} PendingIsPositive(tasks: seq<Task>, i: nat)
    requires i < |tasks| && tasks[i].counted
    ensures Pending(tasks, tasks[i].session) > 0
  {
    if i < |tasks| - 1 {
      PendingIsPositive(tasks[..|tasks| - 1], i);
    }
  }

  /** Behind a task that has started, every earlier task of its session has settled. */
  lemma {:induction false} EarlierHaveSettled(tasks: seq<Task>, j: nat, i: nat)
    requires Chained(tasks) && Ordered(tasks)
    requires j < i < |tasks| && tasks[j].session == tasks[i].session
    requires SettledAt(tasks, tasks[i].after)
    ensures tasks[j].status.Settled?
    decreases i
  {
    var p := tasks[i].after.value;
    if j < p {
      EarlierHaveSettled(tasks, j, p);
    }
  }

  lemma ChainedSnoc(tasks: seq<Task>, t: Task)
    requires Chained(tasks)
    requires t.after.Some? ==> t.after.value < |tasks| && tasks[t.after.value].session == t.session
    requires forall j :: 0 <= j < |tasks| && tasks[j].session == t.session ==>
               t.after.Some? && j <= t.after.value
    ensures Chained(tasks + [t])
  {
    var longer := tasks + [t];
    assert longer[|tasks|] == t;
    assert forall i :: 0 <= i < |tasks| ==> longer[i] == tasks[i];
  }

  lemma EnqueueKeepsChains(a: Actor, session: string, observed: Option<int>)
    requires Chained(a.tasks) && TailsAreLast(a)
    ensures Chained(Enqueued(a, session, observed).tasks)
  {
    ChainedSnoc(a.tasks, Enqueued(a, session, observed).tasks[|a.tasks|]);
    hide Chained;
  }

  lemma EnqueueKeepsTails(a: Actor, session: string, observed: Option<int>)
    requires TailsAreLast(a)
    ensures TailsAreLast(Enqueued(a, session, observed))
  {
    var n, tasks := |a.tasks|, Enqueued(a, session, observed).tasks;
    assert forall i :: 0 <= i < n ==> tasks[i] == a.tasks[i];
    assert tasks[n].session == session;
  }

  lemma EnqueueKeepsCounts(a: Actor, session: string, observed: Option<int>)
    requires ActiveCounts(a)
    ensures ActiveCounts(Enqueued(a, session, observed))
  {
    var b := Enqueued(a, session, observed);
    forall x ensures Pending(b.tasks, x) == Pending(a.tasks, x) + (if x == session then 1 else 0) {
      PendingSnoc(a.tasks, b.tasks[|a.tasks|], x);
    }
    hide Pending;
  }

  lemma EnqueueKeepsOrder(a: Actor, session: string, observed: Option<int>)
    requires Ordered(a.tasks) && StartedInOrder(a)
    ensures Ordered(Enqueued(a, session, observed).tasks) && StartedInOrder(Enqueued(a, session, observed))
  {
    var n, tasks := |a.tasks|, Enqueued(a, session, observed).tasks;
    assert forall i :: 0 <= i < n ==> tasks[i] == a.tasks[i];
    assert tasks[n].status.Waiting?;
  }

  /** Steps that replace one task keep its session and its chain. */
  lemma ReplaceKeepsChains(a: Actor, b: Actor, i: nat)
    requires Chained(a.tasks) && TailsAreLast(a) && b.tails == a.tails
    requires i < |a.tasks| == |b.tasks| && b.tasks == a.tasks[i := b.tasks[i]]
    requires b.tasks[i].session == a.tasks[i].session && b.tasks[i].after == a.tasks[i].after
    ensures Chained(b.tasks) && TailsAreLast(b)
  {
    assert forall k :: 0 <= k < |a.tasks| ==>
      b.tasks[k].session == a.tasks[k].session && b.tasks[k].after == a.tasks[k].after;
  }

  /** They also only move it forward, and only when the task before it has settled. */
  lemma ReplaceKeepsOrdered(tasks: seq<Task>, i: nat, t: Task)
    requires Ordered(tasks) && i < |tasks| && t.after == tasks[i].after
    requires tasks[i].status.Settled? ==> t.status.Settled?
    requires !t.status.Waiting? ==> SettledAt(tasks, t.after)
    requires !t.counted ==> t.status.Settled?
    ensures Ordered(tasks[i := t])
  {
    var next := tasks[i := t];
    forall k | 0 <= k < |next|
      ensures !next[k].status.Waiting? ==> SettledAt(next, next[k].after)
      ensures !next[k].counted ==> next[k].status.Settled?
    {
      assert k != i ==> next[k] == tasks[k];
    }
  }

  /** Replacing a task by one with the same count keeps the busy counters. */
  lemma ReplaceKeepsCounts(a: Actor, b: Actor, i: nat)
    requires ActiveCounts(a) && b.active == a.active
    requires i < |a.tasks| == |b.tasks| && b.tasks == a.tasks[i := b.tasks[i]]
    requires b.tasks[i].session == a.tasks[i].session && b.tasks[i].counted == a.tasks[i].counted
    ensures ActiveCounts(b)
  {
    forall x ensures Pending(b.tasks, x) == Pending(a.tasks, x) {
      PendingUpdate(a.tasks, i, b.tasks[i], x);
    }
    hide Pending;
  }

  /** The started tasks stay the same when none begins. */
  lemma ReplaceKeepsStarted(a: Actor, b: Actor, i: nat)
    requires StartedInOrder(a) && b.started == a.started
    requires i < |a.tasks| == |b.tasks| && b.tasks == a.tasks[i := b.tasks[i]]
    requires b.tasks[i].session == a.tasks[i].session
    requires b.tasks[i].status.Waiting? == a.tasks[i].status.Waiting?
    ensures StartedInOrder(b)
  {
    assert forall k :: 0 <= k < |a.tasks| ==>
      b.tasks[k].session == a.tasks[k].session && b.tasks[k].status.Waiting? == a.tasks[k].status.Waiting?;
  }

  lemma NoLaterTaskHasStarted(tasks: seq<Task>, i: nat, k: nat)
    requires Chained(tasks) && Ordered(tasks)
    requires i < |tasks| && k < |tasks| && tasks[i].session == tasks[k].session
    requires tasks[i].status.Waiting? && !tasks[k].status.Waiting?
    ensures k < i
  {
    if i < k {
      EarlierHaveSettled(tasks, i, k);
      assert false;
    }
  }

  lemma StartKeepsStarted(a: Actor, i: nat)
    requires Chained(a.tasks) && Ordered(a.tasks) && StartedInOrder(a) && Enabled(a, Start(i))
    ensures StartedInOrder(Next(a, Start(i)))
  {
    var b := Next(a, Start(i));
    forall k | 0 <= k < |a.started| && a.tasks[a.started[k]].session == a.tasks[i].session
      ensures a.started[k] < i
    {
      NoLaterTaskHasStarted(a.tasks, i, a.started[k]);
    }
    hide Chained, Ordered;
    assert b.started[|a.started|] == i;
    assert forall m :: 0 <= m < |a.tasks| ==> b.tasks[m].session == a.tasks[m].session;
    assert forall m :: 0 <= m < |a.tasks| && m != i ==> b.tasks[m] == a.tasks[m];
  }

  lemma FinallyKeepsCounts(a: Actor, i: nat)
    requires ActiveCounts(a) && Enabled(a, Finally(i))
    ensures ActiveCounts(Released(a, i))
  {
    var b := Released(a, i);
    PendingIsPositive(a.tasks, i);
    forall x ensures Pending(b.tasks, x) == Pending(a.tasks, x) - (if x == a.tasks[i].session then 1 else 0) {
      PendingUpdate(a.tasks, i, b.tasks[i], x);
    }
    hide Pending;
  }

  lemma CallbackKeepsSound(a: Actor, step: Step)
    requires Sound(a) && Enabled(a, step) && !step.Enqueue? && !step.BeginResume?
    ensures Sound(Next(a, step))
  {
    hide Chained, TailsAreLast, ActiveCounts, Ordered, StartedInOrder;
    var i, b := step.task, Next(a, step);
    assert Ordered(b.tasks) by { CallbackKeepsOrdered(a, step); }
    hide SettledAt;
    ReplaceKeepsChains(a, b, i);
    if step.Finally? {
      FinallyKeepsCounts(a, i);
    } else {
      ReplaceKeepsCounts(a, b, i);
    }
    if step.Start? {
      StartKeepsStarted(a, i);
    } else {
      ReplaceKeepsStarted(a, b, i);
    }
  }

  lemma CallbackKeepsOrdered(a: Actor, step: Step)
    requires Ordered(a.tasks) && Enabled(a, step) && !step.Enqueue? && !step.BeginResume?
    ensures Ordered(Next(a, step).tasks)
  {
    var i, b := step.task, Next(a, step);
    ReplaceKeepsOrdered(a.tasks, i, b.tasks[i]);
  }

  lemma StepKeepsSound(a: Actor, step: Step)
    requires Sound(a) && Enabled(a, step)
    ensures Sound(Next(a, step))
  {
    match step {
      case Enqueue(session, observed) =>
        EnqueueKeepsChains(a, session, observed);
        EnqueueKeepsTails(a, session, observed);
        EnqueueKeepsCounts(a, session, observed);
        EnqueueKeepsOrder(a, session, observed);
        hide Chained, TailsAreLast, ActiveCounts, Ordered, StartedInOrder;
      case BeginResume(_) =>
        hide Pending;
      case _ =>
        CallbackKeepsSound(a, step);
        hide Chained, TailsAreLast, ActiveCounts, Ordered, StartedInOrder;
    }
  }

  lemma {:induction false} RunsAreSound(steps: seq<Step>)
    ensures Sound(Exec(EMPTY, steps))
  {
    if steps != [] {
      var before := Exec(EMPTY, steps[..|steps| - 1]);
      RunsAreSound(steps[..|steps| - 1]);
      hide Sound, Next;
      if Enabled(before, steps[|steps| - 1]) {
        StepKeepsSound(before, steps[|steps| - 1]);
      }
    }
  }

  // ---- exclusion, order and progress over every run ----

  /** At most one task of a session runs, and while it runs every earlier one has settled and
      every later one waits. */
  lemma OneTaskPerSession(steps: seq<Step>, i: nat, j: nat)
    requires var tasks := Exec(EMPTY, steps).tasks;
      && i < |tasks| && j < |tasks| && i != j
      && tasks[i].session == tasks[j].session && tasks[i].status.Running?
    ensures var tasks := Exec(EMPTY, steps).tasks;
      if j < i then tasks[j].status.Settled? else tasks[j].status.Waiting?
  {
    RunsAreSound(steps);
    var tasks := Exec(EMPTY, steps).tasks;
    hide Exec, Pending;
    if j < i {
      EarlierHaveSettled(tasks, j, i);
    } else if !tasks[j].status.Waiting? {
      EarlierHaveSettled(tasks, i, j);
    }
  }

  /** Tasks of a session start in the order in which they were enqueued, none skipped. */
  lemma StartsFollowEnqueueOrder(steps: seq<Step>, i: nat, l: nat)
    requires var a := Exec(EMPTY, steps);
      && l < |a.started| && a.started[l] < |a.tasks|
      && i < a.started[l] && a.tasks[i].session == a.tasks[a.started[l]].session
    ensures i in Exec(EMPTY, steps).started[..l]
  {
    RunsAreSound(steps);
    var a := Exec(EMPTY, steps);
    hide Exec, Pending;
    EarlierHaveSettled(a.tasks, i, a.started[l]);
    var k :| 0 <= k < |a.started| && a.started[k] == i;
    assert a.started[..l][k] == i;
  }

  /** Whatever the outcome of earlier tasks, the oldest unsettled task of a session runs or can
      start at once, so a failing task never blocks its successors. */
  lemma OldestUnsettledCanGoOn(steps: seq<Step>, i: nat)
    requires var tasks := Exec(EMPTY, steps).tasks;
      && i < |tasks| && !tasks[i].status.Settled?
      && (forall j :: 0 <= j < i && tasks[j].session == tasks[i].session ==> tasks[j].status.Settled?)
    ensures var a := Exec(EMPTY, steps);
      a.tasks[i].status.Running? || Enabled(a, Start(i))
  {
    RunsAreSound(steps);
    var tasks := Exec(EMPTY, steps).tasks;
    hide Exec, Pending;
  }

  /** `isBusy` is false exactly when every task of the session has settled and its `finally`
      callback has run. */
  lemma {:induction false} NotBusyMeansSettled(steps: seq<Step>, session: string)
    ensures var a := Exec(EMPTY, steps);
      a.IsBusy(session) <==> exists i :: 0 <= i < |a.tasks| && a.tasks[i].session == session && a.tasks[i].counted
    ensures var a := Exec(EMPTY, steps);
      !a.IsBusy(session) ==>
        forall i :: 0 <= i < |a.tasks| && a.tasks[i].session == session ==> a.tasks[i].status.Settled?
  {
    RunsAreSound(steps);
    var a := Exec(EMPTY, steps);
    PendingMeaning(a.tasks, session);
    hide Exec, Pending;
  }

  lemma {:induction false} PendingMeaning(tasks: seq<Task>, session: string)
    ensures Pending(tasks, session) > 0 <==>
      exists i :: 0 <= i < |tasks| && tasks[i].session == session && tasks[i].counted
  {
    if i :| 0 <= i < |tasks| && tasks[i].session == session && tasks[i].counted {
      PendingIsPositive(tasks, i);
    } else if tasks != [] {
      PendingMeaning(tasks[..|tasks| - 1], session);
    }
  }

  // ---- observations and resumes ----

  function Resumes(steps: seq<Step>, session: string): nat {
    if steps == [] then 0 else
    Resumes(steps[..|steps| - 1], session) + (if steps[|steps| - 1] == BeginResume(session) then 1 else 0)
  }

  lemma {:induction false} GenerationCountsResumes(a: Actor, steps: seq<Step>, session: string)
    ensures Exec(a, steps).Generation(session) == a.Generation(session) + Resumes(steps, session)
  {
    if steps != [] {
      GenerationCountsResumes(a, steps[..|steps| - 1], session);
    }
  }

  /** An observation whose generation was captured in `a` yields its value, when it settles after
      `steps`, exactly when no resume of its session began in between. */
  lemma ObservationsYieldUnlessResumed(a: Actor, steps: seq<Step>, i: nat)
    requires var b := Exec(a, steps);
      && Enabled(b, Settle(i, true))
      && b.tasks[i].observed == Some(a.Generation(b.tasks[i].session))
    ensures var b := Exec(a, steps);
      Next(b, Settle(i, true)).tasks[i].status
      == Settled(if Resumes(steps, b.tasks[i].session) == 0 then Value else Withheld)
  {
    GenerationCountsResumes(a, steps, Exec(a, steps).tasks[i].session);
    hide Exec, Resumes;
  }
}
