/**
  Creating a task and updating its DAG by a batch of operations.

  A batch logs a snapshot of the finished task and then, after it, the reopenings it recorded on the
  way.  Replay applies those late reopenings to the finished task, so a batch is recovered exactly
  when each step it reopened is still waiting at the end and a task it reopened is not blocked again.
 */
module TaskBatches {
  import opened Wrappers
  import opened DependencyGraph
  import opened TaskModel
  import opened TaskReplay
  import opened TaskOperations
  import opened TaskSafety

  // ---------------------------------------------------------------- create

  lemma CreateGood(raws: seq<NewStep>)
    requires CreateTask(raws).Accepted?
    ensures var o := CreateTask(raws);
      && Good(o.task, true) && o.events[0] == TaskCreated(o.task)
      && ReplayLine(NoTask, o.events[0]) == Rebuilt(o.task)
      && Tracks(o.task, o.events[1..], o.task, true)
  {
    var o := CreateTask(raws);
    var steps := StepsFromInput(raws);
    var before := Task(TaskPending, Roots(steps), steps);
    PromoteWF(before);
    PromoteClaims(before);
    PromotionEventsStill(before, o.task);
    TracksStill(o.task, PromotionEvents(before, o.task), true);
    assert o.events[1..] == PromotionEvents(before, o.task);
  }

  // ---------------------------------------------------------------- the editing loop

  /** Every live owned step of `t` is a live step of `original` with the same id and owner. */
  ghost predicate OwnersFrom(original: Task, t: Task) {
    forall s :: s in t.steps && Live(s) && s.owner.Some? ==>
      exists o :: o in original.steps && o.id == s.id && Live(o) && o.owner == s.owner
  }

  ghost predicate Editable(original: Task, t: Task) {
    !TerminalTask(t) && LeasesOnLive(t.steps) && OwnersFrom(original, t)
  }

  lemma EditedStep(original: Task, t: Task, i: nat, s: Step)
    requires OwnersFrom(original, t) && i < |t.steps|
    requires s.id == t.steps[i].id && s.owner == t.steps[i].owner
    requires s.status == t.steps[i].status || (!Live(t.steps[i]) && !Live(s))
    ensures OwnersFrom(original, t.(steps := t.steps[i := s]))
  {
    var u := t.(steps := t.steps[i := s]);
    forall x | x in u.steps && Live(x) && x.owner.Some?
      ensures exists o :: o in original.steps && o.id == x.id && Live(o) && o.owner == x.owner
    {
      var k :| 0 <= k < |u.steps| && u.steps[k] == x;
      assert t.steps[k] in t.steps;
    }
  }

  lemma ApplyKeepsOwners(original: Task, t: Task, op: Operation)
    requires OwnersFrom(original, t) && ApplyOperation(t, op).Some?
    ensures OwnersFrom(original, ApplyOperation(t, op).value)
  {
    match op
    case EditTask(_) =>
    case UnknownOperation =>
    case AddStep(raw) =>
      assert forall s :: s in t.steps + [StepFromInput(raw)] ==> s in t.steps || s == StepFromInput(raw);
    case DeleteStep(id) =>
      assert forall s :: s in WithoutStep(t.steps, id) ==> s in t.steps;
    case _ =>
      var i := Find(t.steps, op.id);
      var u := ApplyOperation(t, op).value;
      if u != t {
        EditedStep(original, t, i, u.steps[i]);
      }
  }

  lemma ApplyKeepsEditable(original: Task, t: Task, op: Operation)
    requires Editable(original, t) && ApplyOperation(t, op).Some?
    ensures Editable(original, ApplyOperation(t, op).value)
  {
    ApplyKeepsOwners(original, t, op);
    if op.DeleteStep? {
      WithoutStepLeases(t.steps, op.id);
    }
  }

  lemma {:induction false} BatchOwners(original: Task, ops: seq<Operation>)
    requires ApplyBatch(original, ops).Some?
    ensures OwnersFrom(original, ApplyBatch(original, ops).value.task)
  {
    if ops != [] {
      BatchOwners(original, ops[..|ops| - 1]);
      ApplyKeepsOwners(original, ApplyBatch(original, ops[..|ops| - 1]).value.task, ops[|ops| - 1]);
    }
  }

  lemma WithoutStepLeases(steps: seq<Step>, id: StepId)
    requires LeasesOnLive(steps)
    ensures LeasesOnLive(WithoutStep(steps, id))
  {
    forall i | 0 <= i < |WithoutStep(steps, id)|
      ensures WithoutStep(steps, id)[i] in steps
    {
    }
  }

  lemma {:induction false} BatchEditable(original: Task, ops: seq<Operation>)
    requires !TerminalTask(original) && LeasesOnLive(original.steps)
    requires ApplyBatch(original, ops).Some?
    ensures Editable(original, ApplyBatch(original, ops).value.task)
  {
    if ops != [] {
      BatchEditable(original, ops[..|ops| - 1]);
      ApplyKeepsEditable(original, ApplyBatch(original, ops[..|ops| - 1]).value.task, ops[|ops| - 1]);
    }
  }

  lemma {:induction false} ReopenedStatus(original: Task, ops: seq<Operation>)
    requires ApplyBatch(original, ops).Some?
    ensures var b := ApplyBatch(original, ops).value;
      b.taskReopened ==> b.task.status.TaskPending? || b.task.status.TaskBlocked?
  {
    if ops != [] {
      var before := ApplyBatch(original, ops[..|ops| - 1]).value.task;
      ReopenedStatus(original, ops[..|ops| - 1]);
      EditedStatus(before, ops[|ops| - 1]);
    }
  }

  lemma EditedStatus(t: Task, op: Operation)
    requires ApplyOperation(t, op).Some?
    ensures var u := ApplyOperation(t, op).value;
      if op.EditTask? && op.status.Some? then u.status.TaskPending? || u.status.TaskBlocked? else u.status == t.status
    ensures op == EditTask(Some(TaskPending)) ==> ApplyOperation(t, op).value.status.TaskPending?
  {
  }

  lemma ClaimsFromOwners(original: Task, t: Task)
    requires UniqueClaims(original) && UniqueIds(t.steps) && OwnersFrom(original, t)
    ensures UniqueClaims(t)
  {
    forall i, j | 0 <= i < j < |t.steps| && Live(t.steps[i]) && Live(t.steps[j])
      && t.steps[i].owner.Some? && t.steps[j].owner.Some?
      ensures t.steps[i].owner.value.run != t.steps[j].owner.value.run
    {
      var a :| a in original.steps && a.id == t.steps[i].id && Live(a) && a.owner == t.steps[i].owner;
      var b :| b in original.steps && b.id == t.steps[j].id && Live(b) && b.owner == t.steps[j].owner;
      var k :| 0 <= k < |original.steps| && original.steps[k] == a;
      var l :| 0 <= l < |original.steps| && original.steps[l] == b;
      assert k != l;
    }
  }

  /** Every accepted batch leaves a well-formed task: a closed acyclic DAG, promoted, with claims still unique. */
  lemma UpdateGood(t: Task, ops: seq<Operation>, owners: bool)
    requires Good(t, owners) && UpdateTask(t, ops).Accepted?
    ensures Good(UpdateTask(t, ops).task, owners)
  {
    var b := ApplyBatch(t, ops).value;
    BatchEditable(t, ops);
    var synced := b.task.(roots := Roots(b.task.steps));
    PromoteWF(synced);
    SameShapeRoots(b.task.steps, Promote(b.task).steps);
    assert Finished(b) == Promote(synced);
    if owners {
      ClaimsFromOwners(t, b.task);
      PromoteClaims(synced);
    }
  }

  // ---------------------------------------------------------------- when the reopenings survive

  /** Each reopened step ends the batch waiting, and a reopened task does not end it blocked. */
  predicate Survives(b: Batch) {
    && (forall id :: id in b.reopened ==>
          Find(b.task.steps, id) < |b.task.steps| && Waiting(b.task.steps[Find(b.task.steps, id)]))
    && (b.taskReopened ==> !b.task.status.TaskBlocked?)
  }

  predicate ReopensSurvive(t: Task, ops: seq<Operation>) {
    var r := ApplyBatch(t, ops);
    r.Some? ==> Survives(r.value)
  }

  lemma StillReopened(t: Task, id: StepId)
    requires WF(t) && Has(t.steps, id) && Waiting(t.steps[Find(t.steps, id)])
    ensures ReplayEvent(t, StepEvent(id, StepReopened)) == Rebuilt(t)
  {
    var i := Find(t.steps, id);
    LocalChange(t, i, t.steps[i].(status := Pending));
    assert t.steps[i := PromoteStep(t.steps[i].(status := Pending), CompletedIds(t.steps))] == t.steps;
    PromoteFixpoint(t);
  }

  lemma StillTaskReopened(t: Task, status: TaskStatus)
    requires WF(t) && status.TaskPending? && t.status == PromoteRunning(status, t.steps)
    ensures ReplayEvent(t, TaskReopened) == Rebuilt(t)
  {
    PromoteFixpoint(t);
  }

  lemma FinishedFind(b: Batch, id: StepId)
    ensures Find(Finished(b).steps, id) == Find(b.task.steps, id)
    ensures |Finished(b).steps| == |b.task.steps|
    ensures forall i :: 0 <= i < |b.task.steps| ==> Waiting(Finished(b).steps[i]) == Waiting(b.task.steps[i])
  {
    PromoteReadyLaws(b.task.steps);
    SameShapeFind(b.task.steps, Finished(b).steps, id);
  }

  /** The events between the snapshot and the promotion events. */
  function LateReopens(b: Batch): seq<Event> {
    ReopenEvents(b.reopened) + (if b.taskReopened then [TaskReopened] else [])
  }

  lemma LateReopensStill(t: Task, ops: seq<Operation>, owners: bool)
    requires Good(t, owners) && UpdateTask(t, ops).Accepted? && ReopensSurvive(t, ops)
    ensures forall e :: e in LateReopens(ApplyBatch(t, ops).value) ==>
      ReplayEvent(UpdateTask(t, ops).task, e) == Rebuilt(UpdateTask(t, ops).task)
        && StartsLive(UpdateTask(t, ops).task, e)
  {
    var b := ApplyBatch(t, ops).value;
    var next := UpdateTask(t, ops).task;
    UpdateGood(t, ops, owners);
    ReopenedStatus(t, ops);
    forall e | e in ReopenEvents(b.reopened)
      ensures ReplayEvent(next, e) == Rebuilt(next) && StartsLive(next, e)
    {
      var i :| 0 <= i < |b.reopened| && e == StepEvent(b.reopened[i], StepReopened);
      assert b.reopened[i] in b.reopened;
      FinishedFind(b, b.reopened[i]);
      StillReopened(next, b.reopened[i]);
    }
    if b.taskReopened {
      StillTaskReopened(next, b.task.status);
    }
  }

  lemma UpdateFaithful(t: Task, ops: seq<Operation>, owners: bool)
    requires Good(t, owners) && ReopensSurvive(t, ops)
    ensures Faithful(t, UpdateTask(t, ops), owners)
  {
    var o := UpdateTask(t, ops);
    if o.Accepted? {
      UpdateGood(t, ops, owners);
      UpdateStill(t, ops, owners);
      BatchEventsSplit(ApplyBatch(t, ops).value);
      TracksThenStill(t, TaskUpdated(o.task), o.task, AfterSnapshot(ApplyBatch(t, ops).value), owners);
      FaithfulExactly(t, o, owners);
    }
  }

  /** Everything a batch logs after its snapshot. */
  function AfterSnapshot(b: Batch): seq<Event> {
    LateReopens(b) + PromotionEvents(b.task, Finished(b))
  }

  lemma BatchEventsSplit(b: Batch)
    ensures BatchEvents(b) == [TaskUpdated(Finished(b))] + AfterSnapshot(b)
  {
  }

  lemma UpdateStill(t: Task, ops: seq<Operation>, owners: bool)
    requires Good(t, owners) && UpdateTask(t, ops).Accepted? && ReopensSurvive(t, ops)
    ensures forall e :: e in AfterSnapshot(ApplyBatch(t, ops).value) ==>
      ReplayEvent(UpdateTask(t, ops).task, e) == Rebuilt(UpdateTask(t, ops).task)
        && StartsLive(UpdateTask(t, ops).task, e)
  {
    var b := ApplyBatch(t, ops).value;
    UpdateGood(t, ops, owners);
    LateReopensStill(t, ops, owners);
    PromotionEventsStill(b.task, UpdateTask(t, ops).task);
  }

  // ---------------------------------------------------------------- and only then

  /** Events that can only set a waiting step pending or ready, or the task pending or running. */
  predicate Gentle(e: Event) {
    e.TaskReopened? || e.TaskStarted? || (e.StepEvent? && (e.change.StepReopened? || e.change.StepReady?))
  }

  /** `r` cannot agree with a task whose step at `i` is not waiting. */
  predicate StuckWaiting(r: Replayed, i: nat) {
    r.Broken? || (r.Rebuilt? && i < |r.task.steps| && Waiting(r.task.steps[i]))
  }

  predicate NotBlocked(r: Replayed) {
    r.Broken? || (r.Rebuilt? && !r.task.status.TaskBlocked?)
  }

  lemma {:induction false} GentleKeeps(r: Replayed, events: seq<Event>, i: nat)
    requires forall e :: e in events ==> Gentle(e)
    ensures StuckWaiting(r, i) ==> StuckWaiting(ReplayFrom(r, events), i)
    ensures NotBlocked(r) ==> NotBlocked(ReplayFrom(r, events))
    ensures r.Broken? ==> ReplayFrom(r, events).Broken?
    ensures r.Rebuilt? ==> !ReplayFrom(r, events).NoTask?
    ensures r.Rebuilt? && ReplayFrom(r, events).Rebuilt? ==> SameShape(r.task.steps, ReplayFrom(r, events).task.steps)
    decreases |events|
  {
    if events != [] {
      GentleKeeps(r, events[..|events| - 1], i);
      assert events[|events| - 1] in events;
      GentleOne(ReplayFrom(r, events[..|events| - 1]), events[|events| - 1], i);
    }
  }

  lemma GentleOne(r: Replayed, e: Event, i: nat)
    requires Gentle(e)
    ensures StuckWaiting(r, i) ==> StuckWaiting(ReplayLine(r, e), i)
    ensures NotBlocked(r) ==> NotBlocked(ReplayLine(r, e))
    ensures r.Broken? ==> ReplayLine(r, e).Broken?
    ensures r.Rebuilt? ==> !ReplayLine(r, e).NoTask?
    ensures r.Rebuilt? && ReplayLine(r, e).Rebuilt? ==> SameShape(r.task.steps, ReplayLine(r, e).task.steps)
  {
    if r.Rebuilt? && e.StepEvent? && Has(r.task.steps, e.id) {
      GentleStep(r.task, Find(r.task.steps, e.id), e.change, i);
    }
  }

  lemma GentleStep(t: Task, k: nat, c: Change, i: nat)
    requires k < |t.steps| && (c.StepReopened? || c.StepReady?)
    ensures var u := ReplayStep(t, k, c);
      && SameShape(t.steps, u.steps)
      && (i < |t.steps| && Waiting(t.steps[i]) ==> Waiting(u.steps[i]))
      && (!t.status.TaskBlocked? ==> !u.status.TaskBlocked?)
  {
  }

  lemma ReadyEventsGentle(before: seq<Step>, after: seq<Step>, n: nat)
    requires n <= |before| == |after|
    ensures forall e :: e in ReadyEvents(before, after, n) ==> Gentle(e)
  {
  }

  /** What replay makes of an accepted batch, whatever it had rebuilt before. */
  function Replay(b: Batch): Replayed {
    ReplayFrom(Rebuilt(Finished(b)), AfterSnapshot(b))
  }

  /** The snapshot replaces whatever replay had rebuilt. */
  lemma SnapshotReplays(b: Batch, r: Replayed)
    requires r.Rebuilt?
    ensures ReplayFrom(r, BatchEvents(b)) == Replay(b)
  {
    BatchEventsSplit(b);
    ReplayFromAppend(r, [TaskUpdated(Finished(b))], AfterSnapshot(b));
    ReplayFromOne(r, TaskUpdated(Finished(b)));
  }

  lemma LostStepReopening(b: Batch, id: StepId)
    requires id in b.reopened
    requires !(Find(b.task.steps, id) < |b.task.steps| && Waiting(b.task.steps[Find(b.task.steps, id)]))
    ensures !(Replay(b).Rebuilt? && Agrees(Replay(b).task, Finished(b), false))
    ensures !Has(b.task.steps, id) ==> Replay(b).Broken?
  {
    ReopenedInReplay(b, id);
    FinishedFind(b, id);
    if Replay(b).Rebuilt? && Agrees(Replay(b).task, Finished(b), false) {
      AgreesFields(Replay(b).task, Finished(b), false);
    }
  }

  /** Replay leaves a recorded reopening's step waiting, or breaks where the step is missing. */
  lemma ReopenedInReplay(b: Batch, id: StepId)
    requires id in b.reopened
    ensures if Has(Finished(b).steps, id) then StuckWaiting(Replay(b), Find(Finished(b).steps, id))
            else Replay(b).Broken?
  {
    var k :| 0 <= k < |b.reopened| && b.reopened[k] == id;
    var late := ReopenEvents(b.reopened);
    var rest := (if b.taskReopened then [TaskReopened] else []) + PromotionEvents(b.task, Finished(b));
    assert AfterSnapshot(b) == late + rest;
    ReadyEventsGentle(b.task.steps, Finished(b).steps, |b.task.steps|);
    ReopenedAmong(Finished(b), late, rest, k, id);
  }

  lemma ReopenedAmong(t: Task, late: seq<Event>, rest: seq<Event>, k: nat, id: StepId)
    requires k < |late| && late[k] == StepEvent(id, StepReopened)
    requires forall e :: e in late || e in rest ==> Gentle(e)
    ensures var end := ReplayFrom(Rebuilt(t), late + rest);
      if Has(t.steps, id) then StuckWaiting(end, Find(t.steps, id)) else end.Broken?
  {
    var tail := late[k + 1..] + rest;
    assert late + rest == late[..k] + ([late[k]] + tail);
    ReplayFromAppend(Rebuilt(t), late[..k], [late[k]] + tail);
    GentleKeeps(Rebuilt(t), late[..k], 0);
    StuckAfter(ReplayFrom(Rebuilt(t), late[..k]), t, id, tail);
  }

  lemma StuckAfter(r: Replayed, t: Task, id: StepId, tail: seq<Event>)
    requires r.Broken? || (r.Rebuilt? && SameShape(t.steps, r.task.steps))
    requires forall e :: e in tail ==> Gentle(e)
    ensures var end := ReplayFrom(r, [StepEvent(id, StepReopened)] + tail);
      if Has(t.steps, id) then StuckWaiting(end, Find(t.steps, id)) else end.Broken?
  {
    var e := StepEvent(id, StepReopened);
    ReplayFromAppend(r, [e], tail);
    ReplayFromOne(r, e);
    ReopenedIsStuck(r, t, id);
    GentleKeeps(ReplayLine(r, e), tail, Find(t.steps, id));
  }

  lemma ReopenedIsStuck(r: Replayed, t: Task, id: StepId)
    requires r.Broken? || (r.Rebuilt? && SameShape(t.steps, r.task.steps))
    ensures var next := ReplayLine(r, StepEvent(id, StepReopened));
      if Has(t.steps, id) then StuckWaiting(next, Find(t.steps, id)) else next.Broken?
  {
    if r.Rebuilt? {
      SameShapeFind(t.steps, r.task.steps, id);
    }
  }

  lemma LostTaskReopening(b: Batch)
    requires b.taskReopened && b.task.status.TaskBlocked?
    ensures !(Replay(b).Rebuilt? && Agrees(Replay(b).task, Finished(b), false))
  {
    var late := ReopenEvents(b.reopened);
    var tail := PromotionEvents(b.task, Finished(b));
    var start := Rebuilt(Finished(b));
    assert AfterSnapshot(b) == late + ([TaskReopened] + tail);
    ReadyEventsGentle(b.task.steps, Finished(b).steps, |b.task.steps|);
    ReplayFromAppend(start, late, [TaskReopened] + tail);
    var before := ReplayFrom(start, late);
    GentleKeeps(start, late, 0);
    ReplayFromAppend(before, [TaskReopened], tail);
    ReplayFromOne(before, TaskReopened);
    GentleKeeps(ReplayLine(before, TaskReopened), tail, 0);
  }

  /**
    The exact condition: replaying an accepted batch rebuilds the task it left if and only if its
    reopenings survive to its end.
   */
  lemma BatchRecoveredIffReopensSurvive(t: Task, ops: seq<Operation>, r: Replayed)
    requires WF(t) && UpdateTask(t, ops).Accepted? && r.Rebuilt?
    ensures var o := UpdateTask(t, ops);
      var end := ReplayFrom(r, o.events);
      (end.Rebuilt? && Agrees(end.task, o.task, false)) <==> ReopensSurvive(t, ops)
  {
    var b := ApplyBatch(t, ops).value;
    var o := UpdateTask(t, ops);
    SnapshotReplays(b, r);
    if Survives(b) {
      UpdateGood(t, ops, false);
      UpdateStill(t, ops, false);
      TracksStill(o.task, AfterSnapshot(b), false);
      TracksReplays(o.task, AfterSnapshot(b), o.task, false);
      AgreesReflexive(o.task, false);
    } else if b.taskReopened && b.task.status.TaskBlocked? {
      LostTaskReopening(b);
    } else {
      var id :| id in b.reopened
        && !(Find(b.task.steps, id) < |b.task.steps| && Waiting(b.task.steps[Find(b.task.steps, id)]));
      LostStepReopening(b, id);
    }
  }

  lemma {:induction false} GentleFound(t: Task, r: Replayed, events: seq<Event>)
    requires r.Rebuilt? && SameShape(t.steps, r.task.steps)
    requires forall e :: e in events ==> Gentle(e) && (e.StepEvent? ==> Has(t.steps, e.id))
    ensures ReplayFrom(r, events).Rebuilt?
    decreases |events|
  {
    if events != [] {
      var before := ReplayFrom(r, events[..|events| - 1]);
      GentleFound(t, r, events[..|events| - 1]);
      GentleKeeps(r, events[..|events| - 1], 0);
      assert events[|events| - 1] in events;
      if events[|events| - 1].StepEvent? {
        SameShapeFind(t.steps, before.task.steps, events[|events| - 1].id);
      }
    }
  }

  lemma {:induction false} ReadyEventsFound(before: seq<Step>, after: seq<Step>, n: nat)
    requires n <= |before| == |after| && UniqueIds(after)
    ensures forall e :: e in ReadyEvents(before, after, n) ==> Gentle(e) && (e.StepEvent? ==> Has(after, e.id))
  {
    if n > 0 {
      ReadyEventsFound(before, after, n - 1);
      FindUnique(after, n - 1);
    }
  }

  /** An accepted batch makes its log unreadable if and only if it removed a step it had reopened. */
  lemma BatchBreaksLogIffReopenedStepGone(t: Task, ops: seq<Operation>, r: Replayed)
    requires WF(t) && UpdateTask(t, ops).Accepted? && r.Rebuilt?
    ensures var o := UpdateTask(t, ops);
      ReplayFrom(r, o.events).Broken?
      <==> exists id :: id in ApplyBatch(t, ops).value.reopened && !Has(o.task.steps, id)
  {
    var b := ApplyBatch(t, ops).value;
    var o := UpdateTask(t, ops);
    SnapshotReplays(b, r);
    if id :| id in b.reopened && !Has(o.task.steps, id) {
      FinishedFind(b, id);
      LostStepReopening(b, id);
    } else {
      AllReopenedPresent(t, ops);
    }
  }

  lemma AllReopenedPresent(t: Task, ops: seq<Operation>)
    requires WF(t) && UpdateTask(t, ops).Accepted?
    requires forall id :: id in ApplyBatch(t, ops).value.reopened ==> Has(UpdateTask(t, ops).task.steps, id)
    ensures Replay(ApplyBatch(t, ops).value).Rebuilt?
  {
    var b := ApplyBatch(t, ops).value;
    var next := UpdateTask(t, ops).task;
    UpdateGood(t, ops, false);
    FinishedFind(b, 0);
    ReadyEventsFound(b.task.steps, next.steps, |next.steps|);
    GentleFound(next, Rebuilt(next), AfterSnapshot(b));
  }

  // ---------------------------------------------------------------- witnesses

  function Lone(id: StepId, status: StepStatus): Step {
    Step(id, status, [], true, None, None)
  }

  lemma LoneStepsSound(steps: seq<Step>)
    requires UniqueIds(steps) && forall i :: 0 <= i < |steps| ==> steps[i].deps == []
    ensures SoundDag(steps)
  {
    assert DependencyEdges(steps) == {};
    TopologicalHasNoCycle({}, []);
  }

  lemma TwoOps(t: Task, first: Operation, second: Operation)
    ensures ApplyBatch(t, [first, second])
         == match BatchStep(t, Batch(t, [], false), first)
            case None => None
            case Some(b) => BatchStep(t, b, second)
  {
    assert [first, second][..1] == [first] && [first][..0] == [];
    assert ApplyBatch(t, [first]) == BatchStep(t, Batch(t, [], false), first);
  }

  /** A blocked step reopened and then deleted in one batch: the log no longer replays at all. */
  lemma ReopenThenDeleteBreaksLog()
    ensures var t := Task(TaskRunning, [1], [Lone(1, Blocked)]);
      var o := UpdateTask(t, [ReopenStep(1), DeleteStep(1)]);
      o.Accepted? && ReplayFrom(Rebuilt(t), o.events) == Broken
  {
    var t := Task(TaskRunning, [1], [Lone(1, Blocked)]);
    var b := Batch(t.(steps := []), [1], false);
    ReopenThenDelete();
    LoneStepsSound([]);
    LoneBlockedWF();
    GoneStep(b);
    BatchBreaksLogIffReopenedStepGone(t, [ReopenStep(1), DeleteStep(1)], Rebuilt(t));
  }

  lemma LoneBlockedWF()
    ensures WF(Task(TaskRunning, [1], [Lone(1, Blocked)]))
  {
    var steps := [Lone(1, Blocked)];
    LoneStepsSound(steps);
    assert Roots(steps) == [1] by {
      assert steps[..0] == [];
    }
  }

  lemma GoneStep(b: Batch)
    requires b.task.steps == [] && b.reopened == [1]
    ensures 1 in b.reopened && !Has(Finished(b).steps, 1)
  {
  }

  lemma ReopenThenDelete()
    ensures var t := Task(TaskRunning, [1], [Lone(1, Blocked)]);
      ApplyBatch(t, [ReopenStep(1), DeleteStep(1)]) == Some(Batch(t.(steps := []), [1], false))
  {
    var t := Task(TaskRunning, [1], [Lone(1, Blocked)]);
    var mid := Batch(t.(steps := [Lone(1, Pending)]), [1], false);
    TwoOps(t, ReopenStep(1), DeleteStep(1));
    FindUnique(t.steps, 0);
    FindUnique(mid.task.steps, 0);
    assert t.steps[0 := t.steps[0].(status := Pending)] == mid.task.steps;
    assert ReopenRecord(t, ReopenStep(1)) == [1] && [] + [1] == [1];
    assert BatchStep(t, Batch(t, [], false), ReopenStep(1)) == Some(mid);
    assert mid.task.steps[..0] == [];
    assert WithoutStep(mid.task.steps, 1) == [];
    assert ReopenRecord(t, DeleteStep(1)) == [] && [1] + [] == [1];
  }

  /** A blocked task reopened and blocked again in one batch recovers as unblocked. */
  lemma ReopenThenBlockLosesBlock()
    ensures var t := Task(TaskBlocked, [], []);
      var o := UpdateTask(t, [EditTask(Some(TaskPending)), EditTask(Some(TaskBlocked))]);
      o.Accepted? && o.task.status.TaskBlocked?
        && ReplayFrom(Rebuilt(t), o.events) == Rebuilt(t.(status := TaskPending))
  {
    var t := Task(TaskBlocked, [], []);
    var b := Batch(t, [], true);
    TwoOps(t, EditTask(Some(TaskPending)), EditTask(Some(TaskBlocked)));
    LoneStepsSound([]);
    BatchEventsSplit(b);
    NothingPromoted(t);
    TaskReopenedReplays(t);
  }

  lemma NothingPromoted(t: Task)
    requires t == Task(TaskBlocked, [], [])
    ensures Finished(Batch(t, [], true)) == t && AfterSnapshot(Batch(t, [], true)) == [TaskReopened]
    ensures Promote(t.(status := TaskPending)) == t.(status := TaskPending)
  {
  }

  lemma TaskReopenedReplays(t: Task)
    requires Promote(t.(status := TaskPending)) == t.(status := TaskPending)
    ensures ReplayFrom(Rebuilt(t), [TaskUpdated(t)] + [TaskReopened]) == Rebuilt(t.(status := TaskPending))
  {
    ReplayFromAppend(Rebuilt(t), [TaskUpdated(t)], [TaskReopened]);
    ReplayFromOne(Rebuilt(t), TaskUpdated(t));
    ReplayFromOne(Rebuilt(t), TaskReopened);
  }
}
