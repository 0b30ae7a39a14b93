/**
  The service operations as functions from the current task to an outcome: rejected with nothing
  changed, or the next task together with the events to log, in the order the service logs them.
 */
module TaskOperations {
  import opened Wrappers
  import opened TaskModel
  import opened TaskReplay

  datatype Outcome = Rejected | Accepted(task: Task, events: seq<Event>)

  /** A step as callers describe it: it has no owner and no lease, but may name any status. */
  datatype NewStep = NewStep(id: StepId, status: StepStatus, deps: seq<StepId>, required: bool)

  function StepFromInput(raw: NewStep): Step {
    Step(raw.id, raw.status, raw.deps, raw.required, None, None)
  }

  // ---------------------------------------------------------------- logged consequences

  /** `ready_event_entries`: one event for each of the first n steps that promotion made ready. */
  function ReadyEvents(before: seq<Step>, after: seq<Step>, n: nat): seq<Event>
    requires n <= |before| == |after|
  {
    if n == 0 then []
    else
      ReadyEvents(before, after, n - 1)
      + (if before[n - 1].status.Pending? && after[n - 1].status.Ready?
         then [StepEvent(after[n - 1].id, StepReady)] else [])
  }

  function StartedEvents(before: TaskStatus, after: TaskStatus): seq<Event> {
    if before.TaskPending? && after.TaskRunning? then [TaskStarted] else []
  }

  function PromotionEvents(before: Task, after: Task): seq<Event>
    requires |before.steps| == |after.steps|
  {
    ReadyEvents(before.steps, after.steps, |after.steps|) + StartedEvents(before.status, after.status)
  }

  // ---------------------------------------------------------------- create and update

  function StepsFromInput(raws: seq<NewStep>): seq<Step> {
    seq(|raws|, i requires 0 <= i < |raws| => StepFromInput(raws[i]))
  }

  ghost function CreateTask(raws: seq<NewStep>): Outcome {
    var steps := StepsFromInput(raws);
    if !SoundDag(steps) then Rejected
    else
      var before := Task(TaskPending, Roots(steps), steps);
      var task := Promote(before);
      Accepted(task, [TaskCreated(task)] + PromotionEvents(before, task))
  }

  datatype Operation =
    | EditTask(status: Option<TaskStatus>)
    | AddStep(step: NewStep)
    | EditStep(id: StepId, required: Option<bool>, deps: Option<seq<StepId>>)
    | DeleteStep(id: StepId)
    | AddDependency(id: StepId, dep: StepId)
    | RemoveDependency(id: StepId, dep: StepId)
    | CancelStep(id: StepId)
    | ReopenStep(id: StepId)
    | UnknownOperation

  function Without(deps: seq<StepId>, dep: StepId): (r: seq<StepId>)
    ensures forall d :: d in r <==> d in deps && d != dep
  {
    if deps == [] then []
    else
      var n := |deps| - 1;
      Without(deps[..n], dep) + (if deps[n] == dep then [] else [deps[n]])
  }

  function WithoutStep(steps: seq<Step>, id: StepId): (r: seq<Step>)
    ensures forall s :: s in r <==> s in steps && s.id != id
  {
    if steps == [] then []
    else
      var n := |steps| - 1;
      WithoutStep(steps[..n], id) + (if steps[n].id == id then [] else [steps[n]])
  }

  /** `apply_operation`; None is the exception that aborts the whole batch. */
  function ApplyOperation(t: Task, op: Operation): Option<Task> {
    match op
    case EditTask(status) =>
      if status.None? then Some(t)
      else if status.value.TaskBlocked? then Some(t.(status := TaskBlocked))
      else if status.value.TaskPending? && t.status.TaskBlocked? then Some(t.(status := TaskPending))
      else None
    case AddStep(raw) =>
      if Has(t.steps, raw.id) then None else Some(t.(steps := t.steps + [StepFromInput(raw)]))
    case UnknownOperation => None
    case _ =>
      var i := Find(t.steps, op.id);
      if i == |t.steps| then None else ApplyToStep(t, op, i)
  }

  function ApplyToStep(t: Task, op: Operation, i: nat): Option<Task>
    requires i < |t.steps|
    requires !op.EditTask? && !op.AddStep? && !op.UnknownOperation?
  {
    var s := t.steps[i];
    match op
    case EditStep(_, required, deps) =>
      var edited := s.(required := if required.Some? then required.value else s.required,
                       deps := if deps.Some? then deps.value else s.deps);
      Some(t.(steps := t.steps[i := edited]))
    case DeleteStep(id) =>
      if !(Waiting(s) || s.status.Cancelled?) then None
      else if exists j :: 0 <= j < |t.steps| && id in t.steps[j].deps then None
      else Some(t.(steps := WithoutStep(t.steps, id)))
    case AddDependency(_, dep) =>
      if !Has(t.steps, dep) then None
      else if dep in s.deps then Some(t)
      else Some(t.(steps := t.steps[i := s.(deps := s.deps + [dep])]))
    case RemoveDependency(_, dep) => Some(t.(steps := t.steps[i := s.(deps := Without(s.deps, dep))]))
    case CancelStep(_) =>
      if Live(s) then None else Some(t.(steps := t.steps[i := s.(status := Cancelled)]))
    case ReopenStep(_) =>
      if s.status.Cancelled? then None
      else if s.status.Blocked? || s.status.Failed? then Some(t.(steps := t.steps[i := s.(status := Pending)]))
      else Some(t)
  }

  /** Progress through an update batch: the copy being edited and the reopenings to log. */
  datatype Batch = Batch(task: Task, reopened: seq<StepId>, taskReopened: bool)

  /**
    One turn of the batch loop.  A reopening is recorded from the status the step had before the
    batch, while the operation itself acts on the copy.
   */
  function BatchStep(original: Task, b: Batch, op: Operation): Option<Batch> {
    if op.ReopenStep? && !Has(original.steps, op.id) then None
    else
      match ApplyOperation(b.task, op)
      case None => None
      case Some(task) =>
        Some(Batch(task,
                   b.reopened + ReopenRecord(original, op),
                   b.taskReopened || (op == EditTask(Some(TaskPending)) && b.task.status.TaskBlocked?)))
  }

  function ReopenRecord(original: Task, op: Operation): seq<StepId>
    requires op.ReopenStep? ==> Has(original.steps, op.id)
  {
    if op.ReopenStep? && (var s := original.steps[Find(original.steps, op.id)]; s.status.Blocked? || s.status.Failed?)
    then [op.id] else []
  }

  function ApplyBatch(original: Task, ops: seq<Operation>): Option<Batch> {
    if ops == [] then Some(Batch(original, [], false))
    else
      match ApplyBatch(original, ops[..|ops| - 1])
      case None => None
      case Some(b) => BatchStep(original, b, ops[|ops| - 1])
  }

  function ReopenEvents(ids: seq<StepId>): seq<Event> {
    seq(|ids|, i requires 0 <= i < |ids| => StepEvent(ids[i], StepReopened))
  }

  /** The task an accepted batch leaves. */
  function Finished(b: Batch): Task {
    Promote(b.task).(roots := Roots(Promote(b.task).steps))
  }

  function BatchEvents(b: Batch): seq<Event> {
    [TaskUpdated(Finished(b))]
    + ReopenEvents(b.reopened)
    + (if b.taskReopened then [TaskReopened] else [])
    + PromotionEvents(b.task, Finished(b))
  }

  ghost function UpdateTask(t: Task, ops: seq<Operation>): Outcome {
    if TerminalTask(t) then Rejected
    else
      match ApplyBatch(t, ops)
      case None => Rejected
      case Some(b) => if SoundDag(b.task.steps) then Accepted(Finished(b), BatchEvents(b)) else Rejected
  }

  // ---------------------------------------------------------------- claim and update of one step

  predicate HoldsLive(steps: seq<Step>, run: nat) {
    exists i :: 0 <= i < |steps| && Live(steps[i]) && OwnedBy(steps[i], run)
  }

  function ClaimStep(t: Task, id: StepId, owner: Owner, lease: Time): Outcome {
    var i := Find(t.steps, id);
    if TerminalTask(t) || t.status.TaskBlocked? || i == |t.steps| || HoldsLive(t.steps, owner.run) then Rejected
    else if !t.steps[i].status.Ready? then Rejected
    else
      Accepted(t.(steps := t.steps[i := t.steps[i].(status := Claimed, owner := Some(owner), lease := Some(lease))]),
               [StepEvent(id, StepClaimed(owner, lease))])
  }

  /** The change a status request makes; None for a request the service refuses. */
  function Requested(s: Step, request: Option<StepStatus>, lease: Time): Option<(Step, Change)> {
    if request.None? then Some((s, StepUpdated))
    else
      match request.value
      case Running => Some((s.(status := Running, lease := Some(lease)), StepStarted(Some(lease))))
      case Blocked => Some((s.(status := Blocked, owner := None, lease := None), StepBlocked))
      case Completed => Some((s.(status := Completed, lease := None), StepCompleted))
      case Failed => Some((s.(status := Failed, lease := None), StepFailed))
      case Cancelled => if Live(s) then None else Some((s.(status := Cancelled, lease := None), StepCancelled))
      case _ => None
  }

  function UpdateStep(t: Task, id: StepId, request: Option<StepStatus>, lease: Time): Outcome {
    var i := Find(t.steps, id);
    if TerminalTask(t) || i == |t.steps| then Rejected
    else
      match Requested(t.steps[i], request, lease)
      case None => Rejected
      case Some((s, change)) =>
        var before := t.(steps := t.steps[i := s]);
        var next := Promote(before);
        Accepted(next, [StepEvent(id, change)] + PromotionEvents(before, next))
  }

  // ---------------------------------------------------------------- completion and termination

  predicate Completable(steps: seq<Step>) {
    forall i :: 0 <= i < |steps| ==> !Live(steps[i]) && (steps[i].required ==> steps[i].status.Completed?)
  }

  predicate Leftover(s: Step) { !s.required && !TerminalStep(s) }

  function CancelLeftovers(steps: seq<Step>): seq<Step> {
    seq(|steps|, i requires 0 <= i < |steps| => if Leftover(steps[i]) then steps[i].(status := Cancelled) else steps[i])
  }

  function LeftoverIds(steps: seq<Step>, n: nat): seq<StepId>
    requires n <= |steps|
  {
    if n == 0 then [] else LeftoverIds(steps, n - 1) + (if Leftover(steps[n - 1]) then [steps[n - 1].id] else [])
  }

  function StepEvents(ids: seq<StepId>, change: Change): seq<Event> {
    seq(|ids|, i requires 0 <= i < |ids| => StepEvent(ids[i], change))
  }

  function CompleteTask(t: Task): Outcome {
    if TerminalTask(t) || !Completable(t.steps) then Rejected
    else
      var ids := LeftoverIds(t.steps, |t.steps|);
      Accepted(t.(status := TaskCompleted, steps := CancelLeftovers(t.steps)),
               StepEvents(ids, StepCancelled) + [TaskFinished(TaskCompleted, ids)])
  }

  function Ended(s: Step, status: StepStatus): Step {
    if TerminalStep(s) then s else s.(status := status, owner := None, lease := None)
  }

  function EndAll(steps: seq<Step>, status: StepStatus): seq<Step> {
    seq(|steps|, i requires 0 <= i < |steps| => Ended(steps[i], status))
  }

  function OpenIds(steps: seq<Step>, n: nat): seq<StepId>
    requires n <= |steps|
  {
    if n == 0 then [] else OpenIds(steps, n - 1) + (if TerminalStep(steps[n - 1]) then [] else [steps[n - 1].id])
  }

  /** `fail_task` and `cancel_task`. */
  function TerminateTask(t: Task, cancel: bool): Outcome {
    if TerminalTask(t) then Rejected
    else
      var status := if cancel then TaskCancelled else TaskFailed;
      var ids := OpenIds(t.steps, |t.steps|);
      Accepted(t.(status := status, steps := EndAll(t.steps, SettledStatus(status))),
               StepEvents(ids, if cancel then StepCancelled else StepFailed) + [TaskFinished(status, ids)])
  }

  // ---------------------------------------------------------------- leases and lost workers

  predicate Expired(s: Step, now: Time) { Live(s) && s.lease.Some? && s.lease.value <= now }

  function Freed(s: Step, now: Time): Step {
    if Expired(s, now) then s.(status := Pending, owner := None, lease := None) else s
  }

  function FreeExpired(steps: seq<Step>, now: Time): seq<Step> {
    seq(|steps|, i requires 0 <= i < |steps| => Freed(steps[i], now))
  }

  function ExpiredIds(steps: seq<Step>, now: Time, n: nat): seq<StepId>
    requires n <= |steps|
  {
    if n == 0 then []
    else ExpiredIds(steps, now, n - 1) + (if Expired(steps[n - 1], now) then [steps[n - 1].id] else [])
  }

  /** `_reconcile_leases`; an accepted outcome without events is "nothing to do". */
  function ReconcileLeases(t: Task, now: Time): Outcome {
    var ids := ExpiredIds(t.steps, now, |t.steps|);
    if TerminalTask(t) || ids == [] then Accepted(t, [])
    else
      var before := t.(steps := FreeExpired(t.steps, now));
      var next := Promote(before);
      Accepted(next, StepEvents(ids, StepLeaseExpired) + PromotionEvents(before, next))
  }

  /** Index of the first live step the run owns; the number of steps when there is none. */
  function FirstHeld(steps: seq<Step>, run: nat): (i: nat)
    ensures i <= |steps|
    ensures i < |steps| ==> Live(steps[i]) && OwnedBy(steps[i], run)
    ensures forall j :: 0 <= j < i ==> !(Live(steps[j]) && OwnedBy(steps[j], run))
  {
    if steps == [] || (Live(steps[0]) && OwnedBy(steps[0], run)) then 0 else 1 + FirstHeld(steps[1..], run)
  }

  /** `fail_unclosed_worker_step`: only the first live step of the run, and without promotion. */
  function FailUnclosed(t: Task, run: nat): Outcome {
    var i := FirstHeld(t.steps, run);
    if TerminalTask(t) || i == |t.steps| then Accepted(t, [])
    else
      Accepted(t.(steps := t.steps[i := t.steps[i].(status := Failed, owner := None, lease := None)]),
               [StepEvent(t.steps[i].id, StepFailed)])
  }
}
