/**
  When a batch's reopenings survive it, read off the operations before the batch is sent.

  Of the operations on a step that a batch reopens, the last one that adds, deletes or cancels the step decides: it
  must be an addition that leaves the step waiting, or there must be none.  Of the edits of the status of the task the
  last one decides.
 */
module TaskReopens {
  import opened Wrappers
  import opened TaskModel
  import opened TaskReplay
  import opened TaskOperations
  import opened TaskBatches
  import opened TaskRuns

  // ---------------------------------------------------------------- the criteria

  predicate Stopped(s: StepStatus) { s.Blocked? || s.Failed? }

  /** The step is there before the batch, blocked or failed: its reopening is recorded. */
  predicate ToReopen(t: Task, id: StepId) {
    Has(t.steps, id) && Stopped(t.steps[Find(t.steps, id)].status)
  }

  predicate Puts(op: Operation, id: StepId) { op.AddStep? && op.step.id == id }

  predicate Removes(op: Operation, id: StepId) { op.DeleteStep? && op.id == id }

  predicate Cancels(op: Operation, id: StepId) { op.CancelStep? && op.id == id }

  /** Reading the operations backwards; `reopened` says whether a reopening of the step follows them. */
  predicate EndsWaiting(ops: seq<Operation>, id: StepId, reopened: bool) {
    if ops == [] then reopened
    else
      var n := |ops| - 1;
      if Removes(ops[n], id) || Cancels(ops[n], id) then false
      else if Puts(ops[n], id) then
        ops[n].step.status.Pending? || ops[n].step.status.Ready? || (reopened && Stopped(ops[n].step.status))
      else EndsWaiting(ops[..n], id, reopened || ops[n] == ReopenStep(id))
  }

  /** The last addition or deletion of the step is a deletion. */
  predicate EndsDeleted(ops: seq<Operation>, id: StepId) {
    ops != [] &&
    (var n := |ops| - 1;
     Removes(ops[n], id) || (!Puts(ops[n], id) && EndsDeleted(ops[..n], id)))
  }

  /** The last edit of the status of the task blocks it. */
  predicate EndsBlocked(ops: seq<Operation>) {
    ops != [] &&
    (var n := |ops| - 1;
     if ops[n].EditTask? && ops[n].status.Some? then ops[n].status.value.TaskBlocked? else EndsBlocked(ops[..n]))
  }

  predicate ReopensSettle(t: Task, ops: seq<Operation>) {
    && (forall op :: op in ops && op.ReopenStep? && ToReopen(t, op.id) ==> EndsWaiting(ops, op.id, false))
    && (EditTask(Some(TaskPending)) in ops ==> !EndsBlocked(ops))
  }

  /** A step that was blocked or failed is reopened, and gone at the end. */
  predicate BreaksLog(t: Task, ops: seq<Operation>) {
    exists op :: op in ops && op.ReopenStep? && ToReopen(t, op.id) && EndsDeleted(ops, op.id)
  }

  // ---------------------------------------------------------------- the status of one step through a batch

  function StatusIn(steps: seq<Step>, id: StepId): Option<StepStatus> {
    if Has(steps, id) then Some(steps[Find(steps, id)].status) else None
  }

  function NextFate(f: Option<StepStatus>, op: Operation, id: StepId): Option<StepStatus> {
    if Puts(op, id) then Some(op.step.status)
    else if Removes(op, id) then None
    else if Cancels(op, id) then (if f.Some? then Some(Cancelled) else None)
    else if op == ReopenStep(id) && f.Some? && Stopped(f.value) then Some(Pending)
    else f
  }

  function Fate(f: Option<StepStatus>, ops: seq<Operation>, id: StepId): Option<StepStatus> {
    if ops == [] then f else NextFate(Fate(f, ops[..|ops| - 1], id), ops[|ops| - 1], id)
  }

  lemma {:induction false} StatusAppend(a: seq<Step>, b: seq<Step>, id: StepId)
    ensures StatusIn(a + b, id) == if Has(a, id) then StatusIn(a, id) else StatusIn(b, id)
    decreases |a|
  {
    if a == [] {
      assert a + b == b;
    } else if a[0].id != id {
      assert (a + b)[0] == a[0] && (a + b)[1..] == a[1..] + b;
      StatusAppend(a[1..], b, id);
    }
  }

  lemma {:induction false} StatusWithout(steps: seq<Step>, gone: StepId, id: StepId)
    ensures StatusIn(WithoutStep(steps, gone), id) == if id == gone then None else StatusIn(steps, id)
    decreases |steps|
  {
    if steps != [] {
      var n := |steps| - 1;
      var last := if steps[n].id == gone then [] else [steps[n]];
      assert steps == steps[..n] + [steps[n]];
      StatusWithout(steps[..n], gone, id);
      StatusAppend(WithoutStep(steps[..n], gone), last, id);
      StatusAppend(steps[..n], [steps[n]], id);
    }
  }

  lemma StatusUpdate(steps: seq<Step>, i: nat, s: Step, id: StepId)
    requires i < |steps| && Find(steps, steps[i].id) == i && s.id == steps[i].id
    ensures StatusIn(steps[i := s], id) == if id == s.id then Some(s.status) else StatusIn(steps, id)
  {
    SameIdsFind(steps, steps[i := s], id);
  }

  lemma SameIdsFind(a: seq<Step>, b: seq<Step>, id: StepId)
    requires |a| == |b| && forall k :: 0 <= k < |a| ==> a[k].id == b[k].id
    ensures Find(a, id) == Find(b, id)
  {
    assert Find(a, id) < |b| ==> b[Find(a, id)].id == a[Find(a, id)].id;
  }

  lemma OperationFate(t: Task, op: Operation, id: StepId)
    requires ApplyOperation(t, op).Some?
    ensures StatusIn(ApplyOperation(t, op).value.steps, id) == NextFate(StatusIn(t.steps, id), op, id)
    ensures op == ReopenStep(id) ==> StatusIn(t.steps, id).Some? && !StatusIn(t.steps, id).value.Cancelled?
  {
    match op
    case EditTask(_) =>
    case UnknownOperation =>
    case AddStep(raw) => AddFate(t, raw, id);
    case DeleteStep(gone) => DeleteFate(t, gone, id);
    case _ => EditFate(t, op, id);
  }

  lemma AddFate(t: Task, raw: NewStep, id: StepId)
    requires ApplyOperation(t, AddStep(raw)).Some?
    ensures StatusIn(ApplyOperation(t, AddStep(raw)).value.steps, id)
      == NextFate(StatusIn(t.steps, id), AddStep(raw), id)
  {
    StatusAppend(t.steps, [StepFromInput(raw)], id);
  }

  lemma DeleteFate(t: Task, gone: StepId, id: StepId)
    requires ApplyOperation(t, DeleteStep(gone)).Some?
    ensures StatusIn(ApplyOperation(t, DeleteStep(gone)).value.steps, id)
         == NextFate(StatusIn(t.steps, id), DeleteStep(gone), id)
  {
    StatusWithout(t.steps, gone, id);
  }

  lemma EditFate(t: Task, op: Operation, id: StepId)
    requires !op.EditTask? && !op.UnknownOperation? && !op.AddStep? && !op.DeleteStep?
    requires ApplyOperation(t, op).Some?
    ensures StatusIn(ApplyOperation(t, op).value.steps, id) == NextFate(StatusIn(t.steps, id), op, id)
    ensures op == ReopenStep(id) ==> StatusIn(t.steps, id).Some? && !StatusIn(t.steps, id).value.Cancelled?
  {
    var i := Find(t.steps, op.id);
    var u := ApplyOperation(t, op).value;
    OneStepEdited(t, op, i, u);
    StatusUpdate(t.steps, i, u.steps[i], id);
  }

  lemma OneStepEdited(t: Task, op: Operation, i: nat, u: Task)
    requires !op.EditTask? && !op.UnknownOperation? && !op.AddStep? && !op.DeleteStep?
    requires i < |t.steps| && ApplyToStep(t, op, i) == Some(u)
    ensures |u.steps| == |t.steps| && u.steps == t.steps[i := u.steps[i]] && u.steps[i].id == t.steps[i].id
    ensures u.steps[i].status
         == if op.CancelStep? then Cancelled
            else if op.ReopenStep? && (t.steps[i].status.Blocked? || t.steps[i].status.Failed?) then Pending
            else t.steps[i].status
    ensures op.ReopenStep? ==> !t.steps[i].status.Cancelled?
  {
  }

  lemma {:induction false} BatchFate(t: Task, ops: seq<Operation>, id: StepId)
    requires ApplyBatch(t, ops).Some?
    ensures StatusIn(ApplyBatch(t, ops).value.task.steps, id) == Fate(StatusIn(t.steps, id), ops, id)
  {
    if ops != [] {
      var n := |ops| - 1;
      BatchFate(t, ops[..n], id);
      OperationFate(ApplyBatch(t, ops[..n]).value.task, ops[n], id);
    }
  }

  /** The reopenings a batch records are those of steps that were blocked or failed before it. */
  lemma {:induction false} RecordedIff(t: Task, ops: seq<Operation>, id: StepId)
    requires ApplyBatch(t, ops).Some?
    ensures id in ApplyBatch(t, ops).value.reopened <==> ReopenStep(id) in ops && ToReopen(t, id)
  {
    if ops != [] {
      var n := |ops| - 1;
      RecordedIff(t, ops[..n], id);
      LastIn(ops, ReopenStep(id));
    }
  }

  predicate EditsStatus(op: Operation) { op.EditTask? && op.status.Some? }

  lemma OperationTaskStatus(t: Task, op: Operation)
    requires ApplyOperation(t, op).Some?
    ensures ApplyOperation(t, op).value.status == if EditsStatus(op) then op.status.value else t.status
    ensures EditsStatus(op) ==> op.status.value.TaskBlocked? || (op.status.value.TaskPending? && t.status.TaskBlocked?)
  {
  }

  lemma {:induction false} TaskReopenedIff(t: Task, ops: seq<Operation>)
    requires ApplyBatch(t, ops).Some?
    ensures var b := ApplyBatch(t, ops).value;
      && (b.taskReopened <==> EditTask(Some(TaskPending)) in ops)
      && (b.taskReopened ==> (b.task.status.TaskBlocked? <==> EndsBlocked(ops)))
  {
    if ops != [] {
      var n := |ops| - 1;
      TaskReopenedIff(t, ops[..n]);
      OperationTaskStatus(ApplyBatch(t, ops[..n]).value.task, ops[n]);
      LastIn(ops, EditTask(Some(TaskPending)));
    }
  }

  lemma LastIn(ops: seq<Operation>, op: Operation)
    requires ops != []
    ensures op in ops <==> op in ops[..|ops| - 1] || op == ops[|ops| - 1]
  {
    assert ops == ops[..|ops| - 1] + [ops[|ops| - 1]];
  }

  // ---------------------------------------------------------------- from fate to criterion

  /** A status that is waiting, or will be once a reopening follows. */
  predicate WillWait(f: Option<StepStatus>, reopened: bool) {
    f.Some? && (f.value.Pending? || f.value.Ready? || (reopened && Stopped(f.value)))
  }

  lemma {:induction false} FateWaitsIff(f: Option<StepStatus>, ops: seq<Operation>, id: StepId, reopened: bool)
    requires f.Some? && Stopped(f.value)
    ensures WillWait(Fate(f, ops, id), reopened) <==> EndsWaiting(ops, id, reopened)
    decreases |ops|
  {
    if ops != [] {
      var n := |ops| - 1;
      FateWaitsIff(f, ops[..n], id, reopened || ops[n] == ReopenStep(id));
    }
  }

  lemma {:induction false} FateGoneIff(f: Option<StepStatus>, ops: seq<Operation>, id: StepId)
    requires f.Some?
    ensures Fate(f, ops, id).None? <==> EndsDeleted(ops, id)
  {
    if ops != [] {
      FateGoneIff(f, ops[..|ops| - 1], id);
    }
  }

  /** The reopenings of a batch that goes through survive it exactly when its operations say so. */
  lemma SurviveIffSettle(t: Task, ops: seq<Operation>)
    requires ApplyBatch(t, ops).Some?
    ensures ReopensSurvive(t, ops) <==> ReopensSettle(t, ops)
  {
    var b := ApplyBatch(t, ops).value;
    TaskReopenedIff(t, ops);
    forall id: StepId
      ensures id in b.reopened <==> ReopenStep(id) in ops && ToReopen(t, id)
      ensures id in b.reopened ==>
        (Has(b.task.steps, id) && Waiting(b.task.steps[Find(b.task.steps, id)]) <==> EndsWaiting(ops, id, false))
    {
      RecordedIff(t, ops, id);
      BatchFate(t, ops, id);
      if id in b.reopened {
        FateWaitsIff(StatusIn(t.steps, id), ops, id, false);
      }
    }
    assert forall op :: op in ops && op.ReopenStep? ==> op == ReopenStep(op.id);
  }

  // ---------------------------------------------------------------- the exact conditions

  /** Replaying an accepted batch rebuilds the task it left if and only if its operations let its reopenings survive. */
  lemma BatchRecoveredIff(t: Task, ops: seq<Operation>, r: Replayed)
    requires WF(t) && UpdateTask(t, ops).Accepted? && r.Rebuilt?
    ensures var o := UpdateTask(t, ops);
      var end := ReplayFrom(r, o.events);
      (end.Rebuilt? && Agrees(end.task, o.task, false)) <==> ReopensSettle(t, ops)
  {
    BatchRecoveredIffReopensSurvive(t, ops, r);
    SurviveIffSettle(t, ops);
  }

  /**
    An accepted batch makes its log unreadable if and only if it reopens a step that was blocked or failed before it
    and the last addition or deletion of that step is a deletion.
   */
  lemma BatchBreaksLogIff(t: Task, ops: seq<Operation>, r: Replayed)
    requires WF(t) && UpdateTask(t, ops).Accepted? && r.Rebuilt?
    ensures ReplayFrom(r, UpdateTask(t, ops).events).Broken? <==> BreaksLog(t, ops)
  {
    var b := ApplyBatch(t, ops).value;
    BatchBreaksLogIffReopenedStepGone(t, ops, r);
    forall id: StepId
      ensures id in b.reopened <==> ReopenStep(id) in ops && ToReopen(t, id)
      ensures id in b.reopened ==> (!Has(UpdateTask(t, ops).task.steps, id) <==> EndsDeleted(ops, id))
    {
      RecordedIff(t, ops, id);
      BatchFate(t, ops, id);
      FinishedFind(b, id);
      if id in b.reopened {
        FateGoneIff(StatusIn(t.steps, id), ops, id);
      }
    }
    assert forall op :: op in ops && op.ReopenStep? ==> op == ReopenStep(op.id);
    if id :| id in b.reopened && EndsDeleted(ops, id) {
      assert ReopenStep(id).id == id;
    }
  }

  // ---------------------------------------------------------------- a sufficient discipline

  /** What comes after a reopening, or adds what is reopened, must not undo it. */
  ghost predicate KeepsReopens(ops: seq<Operation>) {
    && (forall i, j :: 0 <= i < j < |ops| && ops[i].ReopenStep? ==>
      !Cancels(ops[j], ops[i].id) && !Removes(ops[j], ops[i].id))
    && (forall i, j :: 0 <= i < |ops| && 0 <= j < |ops| && ops[i].ReopenStep? ==> !Puts(ops[j], ops[i].id))
    && (forall i, j :: 0 <= i < j < |ops| && ops[i] == EditTask(Some(TaskPending)) ==>
      ops[j] != EditTask(Some(TaskBlocked)))
  }

  lemma KeepsReopensPrefix(ops: seq<Operation>, n: nat)
    requires KeepsReopens(ops) && n <= |ops|
    ensures KeepsReopens(ops[..n])
  {
  }

  /** Gone, cancelled or still stopped: what a step can be before it is reopened. */
  predicate NotYet(f: Option<StepStatus>) {
    f.None? || f.value.Cancelled? || Stopped(f.value)
  }

  lemma KeptStep(f: Option<StepStatus>, op: Operation, id: StepId, already: bool)
    requires !Puts(op, id) && (op == ReopenStep(id) ==> f.Some? && !f.value.Cancelled?)
    requires if already then f == Some(Pending) && !Cancels(op, id) && !Removes(op, id) else NotYet(f)
    ensures if already || op == ReopenStep(id) then NextFate(f, op, id) == Some(Pending)
            else NotYet(NextFate(f, op, id))
  {
  }

  /** A step that is never added is pending once it has been reopened, and stays so. */
  lemma {:induction false} KeptFate(t: Task, ops: seq<Operation>, id: StepId)
    requires ApplyBatch(t, ops).Some? && KeepsReopens(ops) && ToReopen(t, id)
    requires forall op :: op in ops ==> !Puts(op, id)
    ensures var f := Fate(StatusIn(t.steps, id), ops, id);
      if ReopenStep(id) in ops then f == Some(Pending) else NotYet(f)
  {
    if ops != [] {
      var n := |ops| - 1;
      KeepsReopensPrefix(ops, n);
      LastIn(ops, ReopenStep(id));
      assert ops[n] in ops && forall op :: op in ops[..n] ==> op in ops;
      KeptFate(t, ops[..n], id);
      BatchFate(t, ops[..n], id);
      OperationFate(ApplyBatch(t, ops[..n]).value.task, ops[n], id);
      if ReopenStep(id) in ops[..n] {
        var k :| 0 <= k < n && ops[k] == ReopenStep(id);
        assert !Cancels(ops[n], ops[k].id) && !Removes(ops[n], ops[k].id);
      }
      KeptStep(Fate(StatusIn(t.steps, id), ops[..n], id), ops[n], id, ReopenStep(id) in ops[..n]);
    }
  }

  lemma {:induction false} NotBlockedAgain(ops: seq<Operation>)
    requires KeepsReopens(ops) && EditTask(Some(TaskPending)) in ops
    ensures !EndsBlocked(ops)
  {
    var n := |ops| - 1;
    assert ops == ops[..n] + [ops[n]];
    if EditTask(Some(TaskPending)) in ops[..n] {
      var k :| 0 <= k < n && ops[k] == EditTask(Some(TaskPending));
      assert ops[n] != EditTask(Some(TaskBlocked));
      KeepsReopensPrefix(ops, n);
      NotBlockedAgain(ops[..n]);
    }
  }

  /**
    It is enough that a batch neither cancels nor deletes a step after reopening it, adds no step it reopens, and does
    not block the task after reopening it.
   */
  lemma KeptReopensSurvive(t: Task, ops: seq<Operation>)
    requires KeepsReopens(ops)
    ensures ReopensSurvive(t, ops)
  {
    if ApplyBatch(t, ops).Some? {
      var b := ApplyBatch(t, ops).value;
      TaskReopenedIff(t, ops);
      if b.taskReopened {
        NotBlockedAgain(ops);
      }
      forall id | id in b.reopened
        ensures Has(b.task.steps, id) && Waiting(b.task.steps[Find(b.task.steps, id)])
      {
        RecordedIff(t, ops, id);
        var k :| 0 <= k < |ops| && ops[k] == ReopenStep(id);
        assert forall j :: 0 <= j < |ops| ==> !Puts(ops[j], ops[k].id);
        KeptFate(t, ops, id);
        BatchFate(t, ops, id);
      }
    }
  }

  // ---------------------------------------------------------------- it takes all three

  lemma ApplyOne(t: Task, ops: seq<Operation>, op: Operation)
    ensures ApplyBatch(t, ops + [op])
         == match ApplyBatch(t, ops)
            case None => None
            case Some(b) => BatchStep(t, b, op)
  {
    assert (ops + [op])[..|ops|] == ops;
  }

  function FailedTask(): Task { Task(TaskRunning, [1], [Lone(1, Failed)]) }

  /** The draft with these steps. */
  function Draft(steps: seq<Step>, reopened: seq<StepId>): Batch {
    Batch(FailedTask().(steps := steps), reopened, false)
  }

  function AddRunning(): Operation { AddStep(NewStep(1, Running, [], true)) }

  function ReAddedRunning(): seq<Operation> {
    [CancelStep(1)] + [DeleteStep(1)] + [AddRunning()] + [ReopenStep(1)]
  }

  lemma CancelIt()
    ensures BatchStep(FailedTask(), Draft([Lone(1, Failed)], []), CancelStep(1))
      == Some(Draft([Lone(1, Cancelled)], []))
  {
    var b := Draft([Lone(1, Failed)], []);
    FindUnique(b.task.steps, 0);
    assert b.task.steps[0 := Lone(1, Cancelled)] == [Lone(1, Cancelled)];
    assert ApplyOperation(b.task, CancelStep(1)) == Some(b.task.(steps := [Lone(1, Cancelled)]));
    assert b.reopened + ReopenRecord(FailedTask(), CancelStep(1)) == [];
  }

  lemma DeleteIt()
    ensures BatchStep(FailedTask(), Draft([Lone(1, Cancelled)], []), DeleteStep(1)) == Some(Draft([], []))
  {
    var steps := [Lone(1, Cancelled)];
    FindUnique(steps, 0);
    assert steps[..0] == [] && WithoutStep(steps, 1) == [];
  }

  lemma AddIt()
    ensures BatchStep(FailedTask(), Draft([], []), AddRunning()) == Some(Draft([Lone(1, Running)], []))
  {
    var b := Draft([], []);
    assert b.task.steps + [StepFromInput(AddRunning().step)] == [Lone(1, Running)];
    assert b.reopened + ReopenRecord(FailedTask(), AddRunning()) == [];
  }

  lemma ReopenIt()
    ensures BatchStep(FailedTask(), Draft([Lone(1, Running)], []), ReopenStep(1))
      == Some(Draft([Lone(1, Running)], [1]))
  {
    var b := Draft([Lone(1, Running)], []);
    FindUnique(FailedTask().steps, 0);
    FindUnique(b.task.steps, 0);
    assert b.reopened + ReopenRecord(FailedTask(), ReopenStep(1)) == [1];
  }

  lemma ReAddedBatch()
    ensures ApplyBatch(FailedTask(), ReAddedRunning()) == Some(Draft([Lone(1, Running)], [1]))
  {
    var t := FailedTask();
    ApplyOne(t, [], CancelStep(1));
    assert [] + [CancelStep(1)] == [CancelStep(1)];
    CancelIt();
    ApplyOne(t, [CancelStep(1)], DeleteStep(1));
    DeleteIt();
    ApplyOne(t, [CancelStep(1)] + [DeleteStep(1)], AddRunning());
    AddIt();
    ApplyOne(t, [CancelStep(1)] + [DeleteStep(1)] + [AddRunning()], ReopenStep(1));
    ReopenIt();
  }

  /**
    A batch that cancels or deletes nothing after its reopening, and still loses it: a failed step is cancelled,
    deleted, added again as running and then reopened.
   */
  lemma ReAddedStepLosesReopening()
    ensures UpdateTask(FailedTask(), ReAddedRunning()).Accepted?
    ensures |ReAddedRunning()| == 4 && ReAddedRunning()[3] == ReopenStep(1)
    ensures !ReopensSurvive(FailedTask(), ReAddedRunning())
  {
    ReAddedBatch();
    Refused(ReAddedRunning(), Draft([Lone(1, Running)], [1]));
  }

  lemma Refused(ops: seq<Operation>, b: Batch)
    requires ApplyBatch(FailedTask(), ops) == Some(b) && b == Draft([Lone(1, Running)], [1])
    ensures UpdateTask(FailedTask(), ops).Accepted? && !ReopensSurvive(FailedTask(), ops)
  {
    NotSurviving(b);
  }

  lemma NotSurviving(b: Batch)
    requires b == Draft([Lone(1, Running)], [1])
    ensures SoundDag(b.task.steps) && !Survives(b)
  {
    LoneStepsSound(b.task.steps);
    FindUnique(b.task.steps, 0);
    assert 1 in b.reopened;
  }
}
