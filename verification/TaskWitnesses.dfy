/**
  Concrete runs that show what the conditions are for: without the owner discipline one run holds two live steps, and
  a restart on the log of a completed task that had drifted revives one of its steps.
 */
module TaskWitnesses {
  import opened Wrappers
  import opened TaskModel
  import opened TaskReplay
  import opened TaskOperations
  import opened TaskBatches
  import opened TaskRuns

  lemma RunMore(r: Record, actions: seq<Action>, a: Action)
    ensures Run(r, actions + [a]) == Act(Run(r, actions), a)
  {
    assert (actions + [a])[..|actions|] == actions;
  }

  /** A call that is accepted and reaches the disk. */
  lemma RunCall(r: Record, actions: seq<Action>, c: Call, t: Task, events: seq<Event>)
    requires Perform(Run(r, actions).task, c) == Accepted(t, events)
    ensures var before, after := Run(r, actions), Run(r, actions + [Do(c, true)]);
      after.task == t && EventsOf(after.log) == EventsOf(before.log) + events
  {
    RunMore(r, actions, Do(c, true));
    EventsOfLines(Run(r, actions).log, events, Run(r, actions).walSeq);
  }

  lemma StillPromoted(t: Task)
    requires !t.status.TaskPending? && forall s :: s in t.steps ==> !s.status.Pending? && s.deps == []
    ensures Promote(t) == t
  {
    assert forall i :: 0 <= i < |t.steps| ==> t.steps[i] in t.steps;
    assert PromoteReady(t.steps) == t.steps;
  }

  lemma {:induction false} NoReadyEvents(steps: seq<Step>, n: nat)
    requires n <= |steps|
    ensures ReadyEvents(steps, steps, n) == []
  {
    if n > 0 {
      NoReadyEvents(steps, n - 1);
    }
  }

  // ---------------------------------------------------------------- one run, two live steps

  const SEVEN := Owner(0, 7)

  function TwoSteps(): seq<NewStep> { [NewStep(1, Pending, [], true), NewStep(2, Pending, [], true)] }

  function Fresh(id: StepId): Step { Step(id, Ready, [], true, None, None) }

  function By7(id: StepId, status: StepStatus, lease: Option<Time>): Step {
    Step(id, status, [], true, Some(SEVEN), lease)
  }

  function Pair(a: Step, b: Step): Task { Task(TaskRunning, [1, 2], [a, b]) }

  lemma PairFind(a: Step, b: Step)
    requires a.id == 1 && b.id == 2
    ensures Find(Pair(a, b).steps, 1) == 0 && Find(Pair(a, b).steps, 2) == 1
  {
    FindUnique(Pair(a, b).steps, 0);
    FindUnique(Pair(a, b).steps, 1);
  }

  lemma PairCreated()
    ensures CreateTask(TwoSteps()).Accepted? && Created(TwoSteps()).task == Pair(Fresh(1), Fresh(2))
  {
    var steps := StepsFromInput(TwoSteps());
    LoneStepsSound(steps);
    assert steps[..1][..0] == [] && steps[..2] == steps;
    assert Roots(steps[..1]) == [1] && Roots(steps) == [1, 2];
    assert PromoteReady(steps) == [Fresh(1), Fresh(2)];
    assert AnyActive([Fresh(1), Fresh(2)]) by {
      assert [Fresh(1), Fresh(2)][0].status.Ready?;
    }
  }

  lemma PairClaim(a: Step, b: Step, id: StepId)
    requires a.id == 1 && b.id == 2 && !Live(a) && !Live(b) && (id == 1 || id == 2)
    requires (if id == 1 then a else b) == Fresh(id)
    ensures ClaimStep(Pair(a, b), id, SEVEN, 9)
         == Accepted(if id == 1 then Pair(By7(1, Claimed, Some(9)), b) else Pair(a, By7(2, Claimed, Some(9))),
                     [StepEvent(id, StepClaimed(SEVEN, 9))])
  {
    PairFind(a, b);
    var s := By7(id, Claimed, Some(9));
    assert Pair(a, b).steps[0 := s] == [s, b] && Pair(a, b).steps[1 := s] == [a, s];
  }

  lemma PairReport(a: Step, b: Step, status: StepStatus, s: Step)
    requires a.id == 1 && a.deps == [] && b.id == 2 && b.deps == [] && !b.status.Pending?
    requires (status.Completed? && s == a.(status := Completed, lease := None))
          || (status.Running? && s == a.(status := Running, lease := Some(9)))
    ensures UpdateStep(Pair(a, b), 1, Some(status), 9).Accepted?
    ensures UpdateStep(Pair(a, b), 1, Some(status), 9).task == Pair(s, b)
  {
    PairFind(a, b);
    assert Pair(a, b).steps[0 := s] == [s, b];
    StillPromoted(Pair(s, b));
  }

  function Claim7(id: StepId): Action { Do(Claim(id, SEVEN, 9), true) }

  function Report1(status: StepStatus): Action { Do(Report(1, Some(status), 9), true) }

  lemma ClaimRuns(r: Record, actions: seq<Action>, a: Step, b: Step, id: StepId)
    requires a.id == 1 && b.id == 2 && !Live(a) && !Live(b) && (id == 1 || id == 2)
    requires (if id == 1 then a else b) == Fresh(id)
    requires Run(r, actions).task == Pair(a, b)
    ensures Run(r, actions + [Claim7(id)]).task
         == if id == 1 then Pair(By7(1, Claimed, Some(9)), b) else Pair(a, By7(2, Claimed, Some(9)))
  {
    PairClaim(a, b, id);
    var o := ClaimStep(Pair(a, b), id, SEVEN, 9);
    RunCall(r, actions, Claim(id, SEVEN, 9), o.task, o.events);
  }

  lemma ReportRuns(r: Record, actions: seq<Action>, a: Step, b: Step, status: StepStatus, s: Step)
    requires a.id == 1 && a.deps == [] && b.id == 2 && b.deps == [] && !b.status.Pending?
    requires (status.Completed? && s == a.(status := Completed, lease := None))
          || (status.Running? && s == a.(status := Running, lease := Some(9)))
    requires Run(r, actions).task == Pair(a, b)
    ensures Run(r, actions + [Report1(status)]).task == Pair(s, b)
  {
    PairReport(a, b, status, s);
    var o := UpdateStep(Pair(a, b), 1, Some(status), 9);
    RunCall(r, actions, Report(1, Some(status), 9), o.task, o.events);
  }

  /** A run claims and completes a step, claims another, and sets the first running again. */
  function RerunCompleted(): seq<Action> {
    [] + [Claim7(1)] + [Report1(Completed)] + [Claim7(2)] + [Report1(Running)]
  }

  lemma FirstHalf(r: Record)
    requires r.task == Pair(Fresh(1), Fresh(2))
    ensures Run(r, [] + [Claim7(1)] + [Report1(Completed)]).task == Pair(By7(1, Completed, None), Fresh(2))
  {
    ClaimRuns(r, [], Fresh(1), Fresh(2), 1);
    ReportRuns(r, [] + [Claim7(1)], By7(1, Claimed, Some(9)), Fresh(2), Completed, By7(1, Completed, None));
  }

  lemma SecondHalf(r: Record, actions: seq<Action>)
    requires Run(r, actions).task == Pair(By7(1, Completed, None), Fresh(2))
    ensures Run(r, actions + [Claim7(2)] + [Report1(Running)]).task
         == Pair(By7(1, Running, Some(9)), By7(2, Claimed, Some(9)))
  {
    var done, claimed := By7(1, Completed, None), By7(2, Claimed, Some(9));
    ClaimRuns(r, actions, done, Fresh(2), 2);
    ReportRuns(r, actions + [Claim7(2)], done, claimed, Running, By7(1, Running, Some(9)));
  }

  /** The code accepts it, and the run then holds two live steps. */
  lemma RerunHoldsTwoLiveSteps()
    ensures CreateTask(TwoSteps()).Accepted?
    ensures var t := Run(Created(TwoSteps()), RerunCompleted()).task;
      && t == Pair(By7(1, Running, Some(9)), By7(2, Claimed, Some(9)))
      && !UniqueClaims(t)
  {
    PairCreated();
    FirstHalf(Created(TwoSteps()));
    SecondHalf(Created(TwoSteps()), [] + [Claim7(1)] + [Report1(Completed)]);
    var t := Pair(By7(1, Running, Some(9)), By7(2, Claimed, Some(9)));
    assert Live(t.steps[0]) && Live(t.steps[1]) && t.steps[0].owner == t.steps[1].owner;
  }

  // ---------------------------------------------------------------- a completed task with a ready step

  function FailedOption(): seq<NewStep> { [NewStep(1, Failed, [], false)] }

  function Only(status: TaskStatus, step: StepStatus): Task {
    Task(status, [1], [Step(1, step, [], false, None, None)])
  }

  function ReopenAndCancel(): seq<Operation> { [ReopenStep(1), CancelStep(1)] }

  lemma OnlyFind(status: TaskStatus, step: StepStatus)
    ensures Find(Only(status, step).steps, 1) == 0
  {
    FindUnique(Only(status, step).steps, 0);
  }

  lemma OnlyInactive(step: StepStatus)
    requires step.Failed? || step.Cancelled?
    ensures Promote(Only(TaskPending, step)) == Only(TaskPending, step)
    ensures PromotionEvents(Only(TaskPending, step), Only(TaskPending, step)) == []
  {
    var t := Only(TaskPending, step);
    assert PromoteReady(t.steps) == t.steps;
    NoReadyEvents(t.steps, 1);
  }

  lemma OnlyCreated()
    ensures CreateTask(FailedOption()) == Accepted(Only(TaskPending, Failed), [TaskCreated(Only(TaskPending, Failed))])
  {
    var steps := StepsFromInput(FailedOption());
    LoneStepsSound(steps);
    assert steps[..0] == [] && Roots(steps) == [1];
    OnlyInactive(Failed);
    assert steps == Only(TaskPending, Failed).steps;
    var e := TaskCreated(Only(TaskPending, Failed));
    assert [e] + [] == [e];
  }

  lemma OnlyBatch()
    ensures ApplyBatch(Only(TaskPending, Failed), ReopenAndCancel())
         == Some(Batch(Only(TaskPending, Cancelled), [1], false))
  {
    var t, mid := Only(TaskPending, Failed), Only(TaskPending, Pending);
    TwoOps(t, ReopenStep(1), CancelStep(1));
    OnlyFind(TaskPending, Failed);
    OnlyFind(TaskPending, Pending);
    OnlyReopened();
    assert mid.steps[0 := mid.steps[0].(status := Cancelled)] == Only(TaskPending, Cancelled).steps;
    assert [1] + ReopenRecord(t, CancelStep(1)) == [1];
  }

  lemma OnlyReopened()
    ensures BatchStep(Only(TaskPending, Failed), Batch(Only(TaskPending, Failed), [], false), ReopenStep(1))
         == Some(Batch(Only(TaskPending, Pending), [1], false))
  {
    var t, mid := Only(TaskPending, Failed), Only(TaskPending, Pending);
    OnlyFind(TaskPending, Failed);
    assert t.steps[0 := t.steps[0].(status := Pending)] == mid.steps;
    assert [] + ReopenRecord(t, ReopenStep(1)) == [1];
  }

  lemma OnlyUpdated()
    ensures UpdateTask(Only(TaskPending, Failed), ReopenAndCancel())
         == Accepted(Only(TaskPending, Cancelled),
                     [TaskUpdated(Only(TaskPending, Cancelled)), StepEvent(1, StepReopened)])
  {
    var b := Batch(Only(TaskPending, Cancelled), [1], false);
    OnlyBatch();
    LoneStepsSound(b.task.steps);
    OnlyInactive(Cancelled);
    assert b.task.steps[..0] == [] && Roots(b.task.steps) == [1];
    assert Finished(b) == b.task;
    assert ReopenEvents([1]) == [StepEvent(1, StepReopened)];
    assert BatchEvents(b) == [TaskUpdated(b.task), StepEvent(1, StepReopened)];
  }

  lemma OnlyCompleted()
    ensures CompleteTask(Only(TaskPending, Cancelled))
         == Accepted(Only(TaskCompleted, Cancelled), [TaskFinished(TaskCompleted, [])])
  {
    var t := Only(TaskPending, Cancelled);
    assert CancelLeftovers(t.steps) == t.steps;
    assert LeftoverIds(t.steps, 0) == [] && LeftoverIds(t.steps, 1) == [];
    assert StepEvents([], StepCancelled) + [TaskFinished(TaskCompleted, [])] == [TaskFinished(TaskCompleted, [])];
  }

  function OnlyLog(): seq<Event> {
    [] + [TaskCreated(Only(TaskPending, Failed))]
      + [TaskUpdated(Only(TaskPending, Cancelled)), StepEvent(1, StepReopened)]
    + [TaskFinished(TaskCompleted, [])]
  }

  lemma ReplayMore(r: Replayed, events: seq<Event>, e: Event)
    ensures ReplayFrom(r, events + [e]) == ReplayLine(ReplayFrom(r, events), e)
  {
    assert (events + [e])[..|events|] == events;
  }

  lemma OnlyReplays()
    ensures ReplayLines(OnlyLog()) == Rebuilt(Only(TaskCompleted, Ready))
  {
    var a, b, c, d := TaskCreated(Only(TaskPending, Failed)), TaskUpdated(Only(TaskPending, Cancelled)),
                      StepEvent(1, StepReopened), TaskFinished(TaskCompleted, []);
    assert OnlyLog() == [] + [a] + [b] + [c] + [d];
    ReplayMore(NoTask, [], a);
    ReplayMore(NoTask, [] + [a], b);
    ReplayMore(NoTask, [] + [a] + [b], c);
    ReplayMore(NoTask, [] + [a] + [b] + [c], d);
    OnlyRevived();
    assert Only(TaskPending, Failed).steps[..0] == [] && Roots(Only(TaskPending, Failed).steps) == [1];
    assert ReplayEvent(Only(TaskRunning, Ready), d) == Rebuilt(Only(TaskCompleted, Ready));
  }

  lemma OnlyRevived()
    ensures ReplayEvent(Only(TaskPending, Cancelled), StepEvent(1, StepReopened)) == Rebuilt(Only(TaskRunning, Ready))
  {
    var t, pending := Only(TaskPending, Cancelled), Only(TaskPending, Pending);
    OnlyFind(TaskPending, Cancelled);
    assert t.steps[0 := t.steps[0].(status := Pending)] == pending.steps;
    var steps := PromoteReady(pending.steps);
    assert steps == Only(TaskRunning, Ready).steps;
    assert AnyActive(steps) by {
      assert steps[0].status.Ready?;
    }
  }

  function UpdateIt(): Action { Do(Update(ReopenAndCancel()), true) }

  /** A failed optional step is reopened and cancelled in one batch, the task completed, and the program restarted. */
  function ReopenCancelComplete(): seq<Action> { [] + [UpdateIt()] + [Do(Complete, true)] + [Restart(4)] }

  lemma RevivedFrom(r: Record)
    requires r.task == Only(TaskPending, Failed) && EventsOf(r.log) == [TaskCreated(Only(TaskPending, Failed))]
    ensures Run(r, [] + [UpdateIt()] + [Do(Complete, true)]).task == Only(TaskCompleted, Cancelled)
    ensures Run(r, ReopenCancelComplete()).task == Only(TaskCompleted, Ready)
  {
    OnlyUpdated();
    RunCall(r, [], Update(ReopenAndCancel()), Only(TaskPending, Cancelled),
            [TaskUpdated(Only(TaskPending, Cancelled)), StepEvent(1, StepReopened)]);
    OnlyCompleted();
    RunCall(r, [] + [UpdateIt()], Complete, Only(TaskCompleted, Cancelled), [TaskFinished(TaskCompleted, [])]);
    RunMore(r, [] + [UpdateIt()] + [Do(Complete, true)], Restart(4));
    RevivedBy(Run(r, [] + [UpdateIt()] + [Do(Complete, true)]));
  }

  lemma RevivedBy(q: Record)
    requires EventsOf(q.log) == OnlyLog()
    ensures Act(q, Restart(4)).task == Only(TaskCompleted, Ready)
  {
    OnlyReplays();
    assert |EventsOf(q.log)| == |OnlyLog()| == 4;
    assert q.log[..4] == q.log;
    assert Only(TaskCompleted, Ready).steps[..0] == [] && Roots(Only(TaskCompleted, Ready).steps) == [1];
  }

  /** The restart brings back a completed task with a ready step. */
  lemma RestartRevivesCancelledStep()
    ensures CreateTask(FailedOption()).Accepted?
    ensures Run(Created(FailedOption()), [] + [UpdateIt()] + [Do(Complete, true)]).task
      == Only(TaskCompleted, Cancelled)
    ensures Run(Created(FailedOption()), ReopenCancelComplete()).task == Only(TaskCompleted, Ready)
  {
    OnlyCreated();
    CreatedLog(FailedOption());
    RevivedFrom(Created(FailedOption()));
  }
}
