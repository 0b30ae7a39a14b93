/**
  Dependency order and progress: steps run only after everything they depend on, and an unblocked
  task whose steps have not failed can always be driven to completion.
 */
module TaskProgress {
  import opened Wrappers
  import opened DependencyGraph
  import opened TaskModel
  import opened TaskReplay
  import opened TaskOperations
  import opened TaskSafety
  import opened TaskBatches
  import opened TaskRuns
  import opened TaskScheduling

  predicate Begun(s: Step) { Live(s) || s.status.Completed? }

  /** Everything a live or completed step depends on is completed. */
  ghost predicate InOrder(t: Task) {
    forall i :: 0 <= i < |t.steps| && Begun(t.steps[i]) ==> DepsMet(t.steps[i], CompletedIds(t.steps))
  }

  /** From `t` to `u`: same DAG, nothing un-completes, and whatever begins had its dependencies completed in `t`. */
  ghost predicate Advances(t: Task, u: Task) {
    && SameShape(t.steps, u.steps)
    && CompletedIds(t.steps) <= CompletedIds(u.steps)
    && forall i :: 0 <= i < |t.steps| && Begun(u.steps[i]) ==> DepsMet(t.steps[i], CompletedIds(t.steps))
  }

  lemma AdvancesInOrder(t: Task, u: Task)
    requires Advances(t, u)
    ensures InOrder(u)
  {
    forall i | 0 <= i < |u.steps| && Begun(u.steps[i])
      ensures DepsMet(u.steps[i], CompletedIds(u.steps))
    {
      assert DepsMet(t.steps[i], CompletedIds(t.steps));
      assert u.steps[i].deps == t.steps[i].deps;
    }
  }

  /** Position by position: completed steps stay, and a step begins only if it had begun or was ready. */
  lemma PointwiseAdvances(t: Task, u: Task)
    requires WF(t) && InOrder(t) && SameShape(t.steps, u.steps)
    requires forall i :: 0 <= i < |t.steps| ==>
      && (t.steps[i].status.Completed? ==> u.steps[i].status.Completed?)
      && (Begun(u.steps[i]) ==> Begun(t.steps[i]) || t.steps[i].status.Ready?)
    ensures Advances(t, u)
  {
    forall x | x in CompletedIds(t.steps)
      ensures x in CompletedIds(u.steps)
    {
      var i :| 0 <= i < |t.steps| && t.steps[i].status.Completed? && t.steps[i].id == x;
      assert u.steps[i].status.Completed? && u.steps[i].id == x;
    }
    forall i | 0 <= i < |t.steps| && Begun(u.steps[i])
      ensures DepsMet(t.steps[i], CompletedIds(t.steps))
    {
      if !Begun(t.steps[i]) {
        assert t.steps[i].status.Ready? && Waiting(t.steps[i]);
      }
    }
  }

  // ---------------------------------------------------------------- orderly calls

  /**
    The calls that schedule a fixed DAG: everything but reports on steps that are not live and batches
    that do more than reopen steps.
   */
  predicate Orderly(t: Task, c: Call) {
    match c
    case Update(ops) => forall op :: op in ops ==> op.ReopenStep?
    case Report(id, _, _) => Has(t.steps, id) ==> Live(t.steps[Find(t.steps, id)])
    case _ => true
  }

  /** A reopening batch only turns blocked and failed steps pending, and records exactly pending ones. */
  lemma {:induction false} ReopeningBatch(t: Task, ops: seq<Operation>)
    requires forall op :: op in ops ==> op.ReopenStep?
    requires ApplyBatch(t, ops).Some?
    ensures var b := ApplyBatch(t, ops).value;
      && SameShape(t.steps, b.task.steps) && !b.taskReopened
      && (forall i :: 0 <= i < |t.steps| ==>
            b.task.steps[i] == t.steps[i] || (!Begun(t.steps[i]) && b.task.steps[i].status.Pending?))
      && (forall id :: id in b.reopened ==>
            Find(b.task.steps, id) < |b.task.steps| && b.task.steps[Find(b.task.steps, id)].status.Pending?)
    decreases |ops|
  {
    if ops != [] {
      var n := |ops| - 1;
      ReopeningBatch(t, ops[..n]);
      assert ops[n] in ops;
      ReopeningStep(t, ApplyBatch(t, ops[..n]).value, ops[n]);
    }
  }

  lemma ReopeningStep(t: Task, b: Batch, op: Operation)
    requires op.ReopenStep? && BatchStep(t, b, op).Some? && SameShape(t.steps, b.task.steps)
    requires forall i :: 0 <= i < |t.steps| ==>
      b.task.steps[i] == t.steps[i] || (!Begun(t.steps[i]) && b.task.steps[i].status.Pending?)
    requires forall id :: id in b.reopened ==>
      Find(b.task.steps, id) < |b.task.steps| && b.task.steps[Find(b.task.steps, id)].status.Pending?
    ensures var c := BatchStep(t, b, op).value;
      && SameShape(t.steps, c.task.steps) && c.taskReopened == b.taskReopened
      && (forall i :: 0 <= i < |t.steps| ==>
            c.task.steps[i] == t.steps[i] || (!Begun(t.steps[i]) && c.task.steps[i].status.Pending?))
      && (forall id :: id in c.reopened ==>
            Find(c.task.steps, id) < |c.task.steps| && c.task.steps[Find(c.task.steps, id)].status.Pending?)
  {
    var c := BatchStep(t, b, op).value;
    SameShapeFind(t.steps, b.task.steps, op.id);
    ReopenedStep(b.task, op.id);
    forall id | id in c.reopened
      ensures Find(c.task.steps, id) < |c.task.steps| && c.task.steps[Find(c.task.steps, id)].status.Pending?
    {
      SameShapeFind(b.task.steps, c.task.steps, id);
    }
  }

  /** A reopening makes one step pending if it was blocked or failed. */
  lemma ReopenedStep(t: Task, id: StepId)
    requires ApplyOperation(t, ReopenStep(id)).Some?
    ensures var u := ApplyOperation(t, ReopenStep(id)).value;
      var i := Find(t.steps, id);
      && SameShape(t.steps, u.steps) && i < |t.steps|
      && u.steps[i] == (if t.steps[i].status.Blocked? || t.steps[i].status.Failed?
                        then t.steps[i].(status := Pending) else t.steps[i])
      && forall j :: 0 <= j < |t.steps| && j != i ==> u.steps[j] == t.steps[j]
  {
  }

  lemma OrderlyFits(t: Task, c: Call)
    requires Orderly(t, c)
    ensures Survivable(t, c) && OwnersKept(t, c)
  {
    if c.Update? && ApplyBatch(t, c.ops).Some? {
      ReopeningBatch(t, c.ops);
    }
  }

  lemma ReportAdvances(t: Task, id: StepId, request: Option<StepStatus>, lease: Time)
    requires WF(t) && InOrder(t) && Orderly(t, Report(id, request, lease))
    requires UpdateStep(t, id, request, lease).Accepted?
    ensures Advances(t, UpdateStep(t, id, request, lease).task)
  {
    UpdateStepWF(t, id, request, lease);
    PointwiseAdvances(t, UpdateStep(t, id, request, lease).task);
  }

  lemma UpdateAdvances(t: Task, ops: seq<Operation>)
    requires WF(t) && InOrder(t) && Orderly(t, Update(ops)) && UpdateTask(t, ops).Accepted?
    ensures Advances(t, UpdateTask(t, ops).task)
  {
    ReopeningBatch(t, ops);
    PromotedBegun(ApplyBatch(t, ops).value.task.steps);
    PointwiseAdvances(t, UpdateTask(t, ops).task);
  }

  /** Promotion begins nothing and un-completes nothing. */
  lemma PromotedBegun(steps: seq<Step>)
    ensures SameShape(steps, PromoteReady(steps))
    ensures forall i :: 0 <= i < |steps| ==>
      && Begun(PromoteReady(steps)[i]) == Begun(steps[i])
      && PromoteReady(steps)[i].status.Completed? == steps[i].status.Completed?
  {
  }

  lemma ReconcileAdvances(t: Task, now: Time)
    requires WF(t) && InOrder(t)
    ensures Advances(t, ReconcileLeases(t, now).task)
  {
    PromotedBegun(FreeExpired(t.steps, now));
    PointwiseAdvances(t, ReconcileLeases(t, now).task);
  }

  lemma ClaimAdvances(t: Task, id: StepId, owner: Owner, lease: Time)
    requires WF(t) && InOrder(t) && ClaimStep(t, id, owner, lease).Accepted?
    ensures Advances(t, ClaimStep(t, id, owner, lease).task)
  {
    PointwiseAdvances(t, ClaimStep(t, id, owner, lease).task);
  }

  lemma CompleteAdvances(t: Task)
    requires WF(t) && InOrder(t) && CompleteTask(t).Accepted?
    ensures Advances(t, CompleteTask(t).task)
  {
    PointwiseAdvances(t, CompleteTask(t).task);
  }

  lemma TerminateAdvances(t: Task, cancel: bool)
    requires WF(t) && InOrder(t) && TerminateTask(t, cancel).Accepted?
    ensures Advances(t, TerminateTask(t, cancel).task)
  {
    PointwiseAdvances(t, TerminateTask(t, cancel).task);
  }

  lemma LoseWorkerAdvances(t: Task, run: nat)
    requires WF(t) && InOrder(t)
    ensures Advances(t, FailUnclosed(t, run).task)
  {
    PointwiseAdvances(t, FailUnclosed(t, run).task);
  }

  /** Every accepted orderly call advances the task. */
  lemma OrderlyAdvances(t: Task, c: Call)
    requires WF(t) && InOrder(t) && Orderly(t, c) && Perform(t, c).Accepted?
    ensures Advances(t, Perform(t, c).task)
  {
    match c
    case Update(ops) => UpdateAdvances(t, ops);
    case Report(id, request, lease) => ReportAdvances(t, id, request, lease);
    case Reconcile(now) => ReconcileAdvances(t, now);
    case Claim(id, owner, lease) => ClaimAdvances(t, id, owner, lease);
    case Complete => CompleteAdvances(t);
    case Terminate(cancel) => TerminateAdvances(t, cancel);
    case LoseWorker(run) => LoseWorkerAdvances(t, run);
  }

  // ---------------------------------------------------------------- order inside the log

  /** Replay of the event begins nothing, and un-completes nothing that `done` lists. */
  predicate Quiet(e: Event, done: set<StepId>) {
    match e
    case StepEvent(id, c) => !c.StepClaimed? && !c.StepStarted? && !c.StepCompleted? && (c.StepUpdated? || id !in done)
    case TaskFinished(_, settled) => forall id :: id in settled ==> id !in done
    case TaskCreated(_) => false
    case TaskUpdated(_) => false
    case _ => true
  }

  /** Position by position nothing begins, and the completed steps are the same. */
  ghost predicate Keeps(t: Task, u: Task) {
    && SameShape(t.steps, u.steps)
    && forall i :: 0 <= i < |t.steps| ==>
      && (Begun(u.steps[i]) ==> Begun(t.steps[i]))
      && t.steps[i].status.Completed? == u.steps[i].status.Completed?
  }

  lemma KeepsInOrder(t: Task, u: Task)
    requires InOrder(t) && Keeps(t, u)
    ensures InOrder(u) && CompletedIds(u.steps) == CompletedIds(t.steps)
  {
    CompletedAgree(t.steps, u.steps);
  }

  lemma KeepsTransitive(a: Task, b: Task, c: Task)
    requires Keeps(a, b) && Keeps(b, c)
    ensures Keeps(a, c)
  {
  }

  lemma PromoteKeeps(t: Task)
    ensures Keeps(t, Promote(t))
  {
    PromotedBegun(t.steps);
  }

  lemma StepKeeps(b: Task, i: nat, s: Step)
    requires i < |b.steps| && s.id == b.steps[i].id && s.deps == b.steps[i].deps && s.required == b.steps[i].required
    requires (Begun(s) ==> Begun(b.steps[i])) && s.status.Completed? == b.steps[i].status.Completed?
    ensures Keeps(b, Promote(b.(steps := b.steps[i := s])))
  {
    var u := b.(steps := b.steps[i := s]);
    assert Keeps(b, u);
    PromoteKeeps(u);
    KeepsTransitive(b, u, Promote(u));
  }

  lemma {:induction false} SettleKeeps(b: Task, status: StepStatus, ids: seq<StepId>)
    requires status.Failed? || status.Cancelled?
    requires forall id :: id in ids ==> id !in CompletedIds(b.steps)
    ensures var r := SettleListed(b.steps, status, ids);
      r.Some? ==> Keeps(b, b.(steps := r.value))
    decreases |ids|
  {
    if ids != [] {
      var n := |ids| - 1;
      SettleKeeps(b, status, ids[..n]);
      var r := SettleListed(b.steps, status, ids[..n]);
      if r.Some? && Has(r.value, ids[n]) {
        assert ids[n] in ids;
        SettleNextKeeps(b, r.value, status, Find(r.value, ids[n]));
      }
    }
  }

  lemma SettleNextKeeps(b: Task, done: seq<Step>, status: StepStatus, i: nat)
    requires (status.Failed? || status.Cancelled?) && Keeps(b, b.(steps := done))
    requires i < |done| && done[i].id !in CompletedIds(b.steps)
    ensures Keeps(b, b.(steps := done[i := done[i].(status := status, owner := None, lease := None)]))
  {
    assert b.steps[i].id == done[i].id;
  }

  lemma QuietKeeps(b: Task, e: Event)
    requires Quiet(e, CompletedIds(b.steps)) && ReplayEvent(b, e).Rebuilt?
    ensures Keeps(b, ReplayEvent(b, e).task)
  {
    match e
    case StepEvent(id, change) =>
      var i := Find(b.steps, id);
      StepKeeps(b, i, ApplyChange(b.steps[i], change));
    case TaskReopened => PromoteKeeps(b.(status := TaskPending));
    case TaskFinished(status, settled) => SettleKeeps(b, SettledStatus(status), settled);
    case _ =>
  }

  lemma {:induction false} QuietFrom(b: Task, events: seq<Event>)
    requires forall e :: e in events ==> Quiet(e, CompletedIds(b.steps))
    ensures ReplayFrom(Rebuilt(b), events).Rebuilt? ==> Keeps(b, ReplayFrom(Rebuilt(b), events).task)
    decreases |events|
  {
    if events != [] {
      var n := |events| - 1;
      var before := ReplayFrom(Rebuilt(b), events[..n]);
      QuietFrom(b, events[..n]);
      assert events[n] in events;
      if before.Rebuilt? && ReplayEvent(before.task, events[n]).Rebuilt? {
        CompletedAgree(b.steps, before.task.steps);
        QuietKeeps(before.task, events[n]);
        KeepsTransitive(b, before.task, ReplayEvent(before.task, events[n]).task);
      }
    }
  }

  /** Wherever replay stops inside the events, what it has rebuilt is in order. */
  ghost predicate OrderedAlong(b: Task, events: seq<Event>) {
    forall k :: 0 <= k <= |events| && ReplayFrom(Rebuilt(b), events[..k]).Rebuilt?
      ==> InOrder(ReplayFrom(Rebuilt(b), events[..k]).task)
  }

  lemma QuietOrdered(b: Task, events: seq<Event>)
    requires InOrder(b) && forall e :: e in events ==> Quiet(e, CompletedIds(b.steps))
    ensures OrderedAlong(b, events)
  {
    forall k | 0 <= k <= |events| && ReplayFrom(Rebuilt(b), events[..k]).Rebuilt?
      ensures InOrder(ReplayFrom(Rebuilt(b), events[..k]).task)
    {
      QuietFrom(b, events[..k]);
      KeepsInOrder(b, ReplayFrom(Rebuilt(b), events[..k]).task);
    }
  }

  lemma FirstThenQuiet(b: Task, e: Event, rest: seq<Event>, u: Task)
    requires InOrder(b) && ReplayEvent(b, e) == Rebuilt(u) && InOrder(u)
    requires forall x :: x in rest ==> Quiet(x, CompletedIds(u.steps))
    ensures OrderedAlong(b, [e] + rest)
  {
    QuietOrdered(u, rest);
    forall k | 0 <= k <= 1 + |rest| && ReplayFrom(Rebuilt(b), ([e] + rest)[..k]).Rebuilt?
      ensures InOrder(ReplayFrom(Rebuilt(b), ([e] + rest)[..k]).task)
    {
      if k > 0 {
        assert ([e] + rest)[..k] == [e] + rest[..k - 1];
        ReplayFromAppend(Rebuilt(b), [e], rest[..k - 1]);
        ReplayFromOne(Rebuilt(b), e);
      }
    }
  }

  lemma AgreesInOrder(t: Task, b: Task)
    requires Agrees(t, b, true) && InOrder(t)
    ensures InOrder(b) && CompletedIds(b.steps) == CompletedIds(t.steps)
  {
    AgreesFields(t, b, true);
    KeepsInOrder(t, b);
  }

  /** The first event of a call, replayed in agreement with the next task; quiet events follow. */
  lemma FirstAgrees(t: Task, b: Task, e: Event, rest: seq<Event>, next: Task)
    requires Agrees(t, b, true) && InOrder(t) && StartsLive(t, e)
    requires ReplayEvent(t, e) == Rebuilt(next) && InOrder(next)
    requires forall x :: x in rest ==> Quiet(x, CompletedIds(next.steps))
    ensures OrderedAlong(b, [e] + rest)
  {
    ReplayAgrees(t, b, e, true);
    var u := ReplayEvent(b, e).task;
    AgreesInOrder(t, b);
    AgreesInOrder(next, u);
    FirstThenQuiet(b, e, rest, u);
  }

  lemma NotCompleted(steps: seq<Step>, id: StepId)
    requires UniqueIds(steps) && Has(steps, id) && !steps[Find(steps, id)].status.Completed?
    ensures id !in CompletedIds(steps)
  {
    if id in CompletedIds(steps) {
      var k :| 0 <= k < |steps| && steps[k].status.Completed? && steps[k].id == id;
      FindUnique(steps, k);
    }
  }

  lemma NotCompletedAt(steps: seq<Step>, i: nat)
    requires UniqueIds(steps) && i < |steps| && !steps[i].status.Completed?
    ensures steps[i].id !in CompletedIds(steps)
  {
    FindUnique(steps, i);
    NotCompleted(steps, steps[i].id);
  }

  lemma {:induction false} ReadyEventsQuiet(before: seq<Step>, after: seq<Step>, n: nat)
    requires n <= |before| == |after| && UniqueIds(after)
    ensures forall e :: e in ReadyEvents(before, after, n) ==> Quiet(e, CompletedIds(after))
  {
    if n > 0 {
      ReadyEventsQuiet(before, after, n - 1);
      if after[n - 1].status.Ready? {
        NotCompletedAt(after, n - 1);
      }
    }
  }

  lemma PromotionEventsQuiet(before: Task, after: Task)
    requires |before.steps| == |after.steps| && UniqueIds(after.steps)
    ensures forall e :: e in PromotionEvents(before, after) ==> Quiet(e, CompletedIds(after.steps))
  {
    ReadyEventsQuiet(before.steps, after.steps, |after.steps|);
  }

  lemma ClaimOrdered(t: Task, b: Task, id: StepId, owner: Owner, lease: Time)
    requires WF(t) && InOrder(t) && Agrees(t, b, true) && ClaimStep(t, id, owner, lease).Accepted?
    ensures OrderedAlong(b, ClaimStep(t, id, owner, lease).events)
  {
    var u := ClaimStep(t, id, owner, lease).task;
    var e := StepEvent(id, StepClaimed(owner, lease));
    ClaimReplays(t, id, owner, lease);
    ClaimAdvances(t, id, owner, lease);
    AdvancesInOrder(t, u);
    FirstAgrees(t, b, e, [], u);
    assert [e] + [] == [e];
  }

  lemma ReportOrdered(t: Task, b: Task, id: StepId, request: Option<StepStatus>, lease: Time)
    requires WF(t) && InOrder(t) && Agrees(t, b, true) && Orderly(t, Report(id, request, lease))
    requires UpdateStep(t, id, request, lease).Accepted?
    ensures OrderedAlong(b, UpdateStep(t, id, request, lease).events)
  {
    var o := UpdateStep(t, id, request, lease);
    var i := Find(t.steps, id);
    var (s, change) := Requested(t.steps[i], request, lease).value;
    var before := t.(steps := t.steps[i := s]);
    UpdateStepWF(t, id, request, lease);
    ReportAdvances(t, id, request, lease);
    AdvancesInOrder(t, o.task);
    PromotionEventsQuiet(before, o.task);
    FirstAgrees(t, b, StepEvent(id, change), PromotionEvents(before, o.task), o.task);
  }

  lemma UpdateOrdered(t: Task, b: Task, ops: seq<Operation>)
    requires WF(t) && InOrder(t) && Agrees(t, b, true) && Orderly(t, Update(ops)) && UpdateTask(t, ops).Accepted?
    ensures OrderedAlong(b, UpdateTask(t, ops).events)
  {
    var o := UpdateTask(t, ops);
    var batch := ApplyBatch(t, ops).value;
    UpdateGood(t, ops, false);
    UpdateAdvances(t, ops);
    AdvancesInOrder(t, o.task);
    ReopeningBatch(t, ops);
    PromotionEventsQuiet(batch.task, o.task);
    forall e | e in ReopenEvents(batch.reopened)
      ensures Quiet(e, CompletedIds(o.task.steps))
    {
      var k :| 0 <= k < |batch.reopened| && e == StepEvent(batch.reopened[k], StepReopened);
      assert batch.reopened[k] in batch.reopened;
      FinishedFind(batch, batch.reopened[k]);
      NotCompleted(o.task.steps, batch.reopened[k]);
    }
    BatchEventsSplit(batch);
    FirstAgrees(t, b, TaskUpdated(o.task), AfterSnapshot(batch), o.task);
  }

  lemma {:induction false} OpenIdsOpen(steps: seq<Step>, n: nat)
    requires UniqueIds(steps) && n <= |steps|
    ensures forall id :: id in OpenIds(steps, n) ==> id !in CompletedIds(steps)
  {
    if n > 0 {
      OpenIdsOpen(steps, n - 1);
      if !TerminalStep(steps[n - 1]) {
        NotCompletedAt(steps, n - 1);
      }
    }
  }

  lemma EndingOrdered(t: Task, b: Task, ids: seq<StepId>, c: Change, status: TaskStatus)
    requires InOrder(t) && Agrees(t, b, true) && Retires(c)
    requires forall id :: id in ids ==> id !in CompletedIds(t.steps)
    ensures OrderedAlong(b, StepEvents(ids, c) + [TaskFinished(status, ids)])
  {
    AgreesInOrder(t, b);
    QuietOrdered(b, StepEvents(ids, c) + [TaskFinished(status, ids)]);
  }

  lemma CompleteOrdered(t: Task, b: Task)
    requires WF(t) && InOrder(t) && Agrees(t, b, true) && CompleteTask(t).Accepted?
    ensures OrderedAlong(b, CompleteTask(t).events)
  {
    LeftoversAreOpen(t.steps, |t.steps|);
    OpenIdsOpen(t.steps, |t.steps|);
    EndingOrdered(t, b, LeftoverIds(t.steps, |t.steps|), StepCancelled, TaskCompleted);
  }

  lemma TerminateOrdered(t: Task, b: Task, cancel: bool)
    requires WF(t) && InOrder(t) && Agrees(t, b, true) && TerminateTask(t, cancel).Accepted?
    ensures OrderedAlong(b, TerminateTask(t, cancel).events)
  {
    OpenIdsOpen(t.steps, |t.steps|);
    EndingOrdered(t, b, OpenIds(t.steps, |t.steps|), if cancel then StepCancelled else StepFailed,
                  if cancel then TaskCancelled else TaskFailed);
  }

  lemma {:induction false} ExpiredIdsOpen(steps: seq<Step>, now: Time, n: nat)
    requires UniqueIds(steps) && n <= |steps|
    ensures forall id :: id in ExpiredIds(steps, now, n) ==> id !in CompletedIds(steps)
  {
    if n > 0 {
      ExpiredIdsOpen(steps, now, n - 1);
      if Expired(steps[n - 1], now) {
        NotCompletedAt(steps, n - 1);
      }
    }
  }

  lemma ReconcileOrdered(t: Task, b: Task, now: Time)
    requires WF(t) && InOrder(t) && Agrees(t, b, true)
    ensures OrderedAlong(b, ReconcileLeases(t, now).events)
  {
    var o := ReconcileLeases(t, now);
    AgreesInOrder(t, b);
    if o.events == [] {
      QuietOrdered(b, []);
    } else {
      var before := t.(steps := FreeExpired(t.steps, now));
      assert Keeps(t, before);
      KeepsInOrder(t, before);
      PromoteKeeps(before);
      KeepsInOrder(before, o.task);
      PromotionEventsQuiet(before, o.task);
      ExpiredIdsOpen(t.steps, now, |t.steps|);
      QuietOrdered(b, o.events);
    }
  }

  lemma LoseWorkerOrdered(t: Task, b: Task, run: nat)
    requires WF(t) && InOrder(t) && Agrees(t, b, true)
    ensures OrderedAlong(b, FailUnclosed(t, run).events)
  {
    var i := FirstHeld(t.steps, run);
    AgreesInOrder(t, b);
    if i < |t.steps| {
      NotCompletedAt(t.steps, i);
    }
    QuietOrdered(b, FailUnclosed(t, run).events);
  }

  /** Replaying the events of an orderly call from an agreeing task stays in order, wherever it stops. */
  lemma PerformOrdered(t: Task, b: Task, c: Call)
    requires WF(t) && InOrder(t) && Agrees(t, b, true) && Orderly(t, c) && Perform(t, c).Accepted?
    ensures OrderedAlong(b, Perform(t, c).events)
  {
    match c
    case Update(ops) => UpdateOrdered(t, b, ops);
    case Report(id, request, lease) => ReportOrdered(t, b, id, request, lease);
    case Reconcile(now) => ReconcileOrdered(t, b, now);
    case Claim(id, owner, lease) => ClaimOrdered(t, b, id, owner, lease);
    case Complete => CompleteOrdered(t, b);
    case Terminate(cancel) => TerminateOrdered(t, b, cancel);
    case LoseWorker(run) => LoseWorkerOrdered(t, b, run);
  }

  // ---------------------------------------------------------------- orderly runs

  /** Every call is orderly; restarts may come at any time and replay any part of the log. */
  ghost predicate OrderlyRun(r: Record, actions: seq<Action>) {
    actions == [] ||
    (var n := |actions| - 1;
     && OrderlyRun(r, actions[..n])
     && (actions[n].Do? ==> Orderly(Run(r, actions[..n]).task, actions[n].call)))
  }

  /** Every non-empty prefix of the log rebuilds a task in order. */
  ghost predicate OrderedLog(events: seq<Event>) {
    forall k :: 0 < k <= |events| ==> ReplayLines(events[..k]).Rebuilt? && InOrder(ReplayLines(events[..k]).task)
  }

  ghost predicate InOrderThroughout(r: Record) {
    Sound(r, true) && InOrder(r.task) && OrderedLog(EventsOf(r.log))
  }

  lemma LogStaysOrdered(events: seq<Event>, b: Task, batch: seq<Event>)
    requires OrderedLog(events) && ReplayLines(events) == Rebuilt(b) && OrderedAlong(b, batch)
    requires CrashSafe(events + batch, true)
    ensures OrderedLog(events + batch)
  {
    forall k | 0 < k <= |events + batch|
      ensures ReplayLines((events + batch)[..k]).Rebuilt? && InOrder(ReplayLines((events + batch)[..k]).task)
    {
      if k <= |events| {
        assert (events + batch)[..k] == events[..k];
      } else {
        var j := k - |events|;
        assert (events + batch)[..k] == events + batch[..j];
        ReplayFromAppend(NoTask, events, batch[..j]);
      }
    }
  }

  lemma CallInOrder(r: Record, c: Call, appended: bool)
    requires InOrderThroughout(r) && Orderly(r.task, c)
    ensures InOrderThroughout(Act(r, Do(c, appended))) && Advances(r.task, Act(r, Do(c, appended)).task)
  {
    var a, o, next := Do(c, appended), Perform(r.task, c), Act(r, Do(c, appended));
    var events := EventsOf(r.log);
    OrderlyFits(r.task, c);
    ActSound(r, a, true);
    if next == r {
      PointwiseAdvances(r.task, r.task);
    } else {
      OrderlyAdvances(r.task, c);
      AdvancesInOrder(r.task, o.task);
      EventsOfLines(r.log, o.events, r.walSeq);
      PerformOrdered(r.task, ReplayLines(events).task, c);
      LogStaysOrdered(events, ReplayLines(events).task, o.events);
    }
  }

  lemma RestartInOrder(r: Record, kept: nat)
    requires InOrderThroughout(r)
    ensures InOrderThroughout(Act(r, Restart(kept)))
  {
    ActSound(r, Restart(kept), true);
    if Reloads(r, kept) {
      var events := EventsOf(r.log);
      EventsOfPrefix(r.log, kept);
      if kept > 0 {
        assert Good(ReplayLines(events[..kept]).task, true);
        RecoverGood(events[..kept], true);
        forall k | 0 < k <= kept
          ensures ReplayLines(events[..kept][..k]).Rebuilt? && InOrder(ReplayLines(events[..kept][..k]).task)
        {
          assert events[..kept][..k] == events[..k];
        }
      }
    }
  }

  lemma PendingInOrder(raws: seq<NewStep>)
    requires CreateTask(raws).Accepted? && forall i :: 0 <= i < |raws| ==> raws[i].status.Pending?
    ensures InOrder(CreateTask(raws).task)
  {
  }

  /** The events after the first leave a created task as it is. */
  lemma CreatedQuiet(raws: seq<NewStep>)
    requires CreateTask(raws).Accepted?
    ensures var o := CreateTask(raws);
      forall e :: e in o.events[1..] ==> Quiet(e, CompletedIds(o.task.steps))
  {
    var o := CreateTask(raws);
    var before := Task(TaskPending, Roots(StepsFromInput(raws)), StepsFromInput(raws));
    CreateGood(raws);
    PromotionEventsQuiet(before, o.task);
    assert o.events[1..] == PromotionEvents(before, o.task);
  }

  lemma CreatedInOrder(raws: seq<NewStep>)
    requires CreateTask(raws).Accepted? && forall i :: 0 <= i < |raws| ==> raws[i].status.Pending?
    ensures InOrderThroughout(Created(raws))
  {
    var r, o := Created(raws), CreateTask(raws);
    CreatedLog(raws);
    CreatedSound(raws, true);
    CreateGood(raws);
    PendingInOrder(raws);
    CreatedQuiet(raws);
    CreatedLogOrdered(o.task, o.events);
  }

  lemma CreatedLogOrdered(t: Task, events: seq<Event>)
    requires events != [] && ReplayLine(NoTask, events[0]) == Rebuilt(t) && InOrder(t) && CrashSafe(events, true)
    requires forall e :: e in events[1..] ==> Quiet(e, CompletedIds(t.steps))
    ensures OrderedLog(events)
  {
    QuietOrdered(t, events[1..]);
    ReplayFromOne(NoTask, events[0]);
    assert events == [events[0]] + events[1..];
    LogStaysOrdered([events[0]], t, events[1..]);
  }

  lemma {:induction false} OrderlyRunInOrder(raws: seq<NewStep>, actions: seq<Action>)
    requires CreateTask(raws).Accepted? && forall i :: 0 <= i < |raws| ==> raws[i].status.Pending?
    requires OrderlyRun(Created(raws), actions)
    ensures InOrderThroughout(Run(Created(raws), actions))
    decreases |actions|
  {
    if actions == [] {
      CreatedInOrder(raws);
    } else {
      var n := |actions| - 1;
      OrderlyRunInOrder(raws, actions[..n]);
      match actions[n]
      case Do(c, appended) => CallInOrder(Run(Created(raws), actions[..n]), c, appended);
      case Restart(kept) => RestartInOrder(Run(Created(raws), actions[..n]), kept);
    }
  }

  /**
    Dependency order.  On a DAG whose steps all start pending, after any orderly run with failed appends, restarts and
    crashes, every live or completed step has all its dependencies completed, and so it is in the task rebuilt from
    every non-empty prefix of the log; and a call completes nothing whose dependencies were not completed before it.
   */
  lemma DependencyOrder(raws: seq<NewStep>, actions: seq<Action>)
    requires CreateTask(raws).Accepted? && forall i :: 0 <= i < |raws| ==> raws[i].status.Pending?
    requires OrderlyRun(Created(raws), actions)
    ensures InOrder(Run(Created(raws), actions).task)
    ensures OrderedLog(EventsOf(Run(Created(raws), actions).log))
    ensures actions != [] && actions[|actions| - 1].Do? ==>
      Advances(Run(Created(raws), actions[..|actions| - 1]).task, Run(Created(raws), actions).task)
  {
    OrderlyRunInOrder(raws, actions);
    if actions != [] && actions[|actions| - 1].Do? {
      var n := |actions| - 1;
      OrderlyRunInOrder(raws, actions[..n]);
      CallInOrder(Run(Created(raws), actions[..n]), actions[n].call, actions[n].appended);
    }
  }

  // ---------------------------------------------------------------- progress

  /** No step has been blocked, failed or cancelled. */
  predicate Healthy(t: Task) {
    forall i :: 0 <= i < |t.steps| ==> Waiting(t.steps[i]) || Begun(t.steps[i])
  }

  function OpenSet(steps: seq<Step>): set<StepId> {
    set i | 0 <= i < |steps| && !steps[i].status.Completed? :: steps[i].id
  }

  lemma OpenMember(steps: seq<Step>, i: nat)
    requires i < |steps|
    ensures steps[i].status.Completed? || steps[i].id in OpenSet(steps)
  {
  }

  /** In a healthy well-formed task with something left to do, some step is ready or live. */
  lemma SomeStepCanMove(t: Task) returns (i: nat)
    requires WF(t) && Healthy(t) && OpenSet(t.steps) != {}
    ensures i < |t.steps| && (t.steps[i].status.Ready? || Live(t.steps[i]))
  {
    var x := AcyclicHasSink(DependencyEdges(t.steps), OpenSet(t.steps));
    i :| 0 <= i < |t.steps| && !t.steps[i].status.Completed? && t.steps[i].id == x;
    forall d | d in t.steps[i].deps
      ensures d in CompletedIds(t.steps)
    {
      assert (x, d) in DependencyEdges(t.steps);
      assert Has(t.steps, d);
      var k := Find(t.steps, d);
      OpenMember(t.steps, k);
    }
  }

  /** A run id that owns nothing. */
  function FreshRun(steps: seq<Step>): (run: nat)
    ensures forall i :: 0 <= i < |steps| ==> !OwnedBy(steps[i], run)
    ensures forall i :: 0 <= i < |steps| && steps[i].owner.Some? ==> steps[i].owner.value.run < run
  {
    if steps == [] then 0
    else
      var n := |steps| - 1;
      var before := FreshRun(steps[..n]);
      if steps[n].owner.Some? && steps[n].owner.value.run >= before then steps[n].owner.value.run + 1 else before
  }

  /** The calls are all accepted, one after the other, and lead from `t` to `u`. */
  ghost predicate Leads(t: Task, calls: seq<Call>, u: Task)
    decreases |calls|
  {
    if calls == [] then t == u
    else Perform(t, calls[0]).Accepted? && Leads(Perform(t, calls[0]).task, calls[1..], u)
  }

  lemma CompleteOne(t: Task, i: nat)
    requires WF(t) && Healthy(t) && !TerminalTask(t) && !t.status.TaskBlocked?
    requires i < |t.steps| && Live(t.steps[i])
    ensures var o := Perform(t, Report(t.steps[i].id, Some(Completed), 0));
      && o.Accepted? && WF(o.task) && Healthy(o.task) && !TerminalTask(o.task) && !o.task.status.TaskBlocked?
      && OpenSet(o.task.steps) == OpenSet(t.steps) - {t.steps[i].id}
  {
    var id := t.steps[i].id;
    FindUnique(t.steps, i);
    UpdateStepWF(t, id, Some(Completed), 0);
    CompletedSteps(t, i);
    OpenSetWithout(t.steps, UpdateStep(t, id, Some(Completed), 0).task.steps, i);
  }

  lemma CompletedSteps(t: Task, i: nat)
    requires i < |t.steps| && Find(t.steps, t.steps[i].id) == i && !TerminalTask(t) && Healthy(t)
    ensures var u := UpdateStep(t, t.steps[i].id, Some(Completed), 0);
      && u.Accepted? && |u.task.steps| == |t.steps| && Healthy(u.task)
      && (forall k :: 0 <= k < |t.steps| ==>
            u.task.steps[k].status.Completed? == (k == i || t.steps[k].status.Completed?))
  {
    var before := t.steps[i := t.steps[i].(status := Completed, lease := None)];
    PromotedBegun(before);
  }

  lemma OpenSetWithout(a: seq<Step>, b: seq<Step>, i: nat)
    requires UniqueIds(a) && SameShape(a, b) && i < |a|
    requires forall k :: 0 <= k < |a| ==> b[k].status.Completed? == (k == i || a[k].status.Completed?)
    ensures OpenSet(b) == OpenSet(a) - {a[i].id}
  {
    forall x
      ensures x in OpenSet(b) <==> x in OpenSet(a) && x != a[i].id
    {
      if x in OpenSet(b) {
        var k :| 0 <= k < |b| && !b[k].status.Completed? && b[k].id == x;
        assert !a[k].status.Completed? && a[k].id == x;
      }
      if x in OpenSet(a) && x != a[i].id {
        var k :| 0 <= k < |a| && !a[k].status.Completed? && a[k].id == x;
        assert !b[k].status.Completed? && b[k].id == x;
      }
    }
  }

  lemma ClaimOne(t: Task, i: nat)
    requires WF(t) && Healthy(t) && !TerminalTask(t) && !t.status.TaskBlocked?
    requires i < |t.steps| && t.steps[i].status.Ready?
    ensures var o := Perform(t, Claim(t.steps[i].id, Owner(0, FreshRun(t.steps)), 0));
      && o.Accepted? && WF(o.task) && Healthy(o.task) && !TerminalTask(o.task) && !o.task.status.TaskBlocked?
      && OpenSet(o.task.steps) == OpenSet(t.steps)
      && |o.task.steps| == |t.steps| && Live(o.task.steps[i]) && o.task.steps[i].id == t.steps[i].id
  {
    FindUnique(t.steps, i);
    ClaimAcceptedIff(t, t.steps[i].id, Owner(0, FreshRun(t.steps)), 0);
    ClaimReplays(t, t.steps[i].id, Owner(0, FreshRun(t.steps)), 0);
    var u := ClaimStep(t, t.steps[i].id, Owner(0, FreshRun(t.steps)), 0).task;
    forall x
      ensures x in OpenSet(u.steps) <==> x in OpenSet(t.steps)
    {
      if x in OpenSet(u.steps) {
        var k :| 0 <= k < |u.steps| && !u.steps[k].status.Completed? && u.steps[k].id == x;
        assert !t.steps[k].status.Completed? && t.steps[k].id == x;
      }
      if x in OpenSet(t.steps) {
        var k :| 0 <= k < |t.steps| && !t.steps[k].status.Completed? && t.steps[k].id == x;
        assert !u.steps[k].status.Completed? && u.steps[k].id == x;
      }
    }
  }

  /**
    Progress.  From every healthy, unblocked, unfinished well-formed task there is a schedule of at most
    two calls per uncompleted step, all accepted, after which `complete_task` succeeds.
   */
  lemma {:induction false} CanBeCompleted(t: Task) returns (calls: seq<Call>, end: Task)
    requires WF(t) && Healthy(t) && !TerminalTask(t) && !t.status.TaskBlocked?
    ensures Leads(t, calls, end) && CompleteTask(end).Accepted?
    ensures |calls| <= 2 * |OpenSet(t.steps)|
    ensures forall c :: c in calls ==> c.Claim? || (c.Report? && c.request == Some(Completed))
    decreases |OpenSet(t.steps)|
  {
    if OpenSet(t.steps) == {} {
      calls, end := [], t;
      forall i | 0 <= i < |t.steps|
        ensures t.steps[i].status.Completed?
      {
        OpenMember(t.steps, i);
      }
    } else {
      var i := SomeStepCanMove(t);
      var claim: seq<Call> := [];
      var u := t;
      if t.steps[i].status.Ready? {
        ClaimOne(t, i);
        claim := [Claim(t.steps[i].id, Owner(0, FreshRun(t.steps)), 0)];
        u := Perform(t, claim[0]).task;
      }
      CompleteOne(u, i);
      var report := Report(u.steps[i].id, Some(Completed), 0);
      var v := Perform(u, report).task;
      assert u.steps[i].id in OpenSet(u.steps);
      var rest;
      rest, end := CanBeCompleted(v);
      LeadsCons(u, report, rest, end);
      if claim == [] {
        calls := [report] + rest;
      } else {
        LeadsCons(t, claim[0], [report] + rest, end);
        calls := claim + ([report] + rest);
      }
    }
  }

  lemma LeadsCons(t: Task, c: Call, rest: seq<Call>, end: Task)
    requires Perform(t, c).Accepted? && Leads(Perform(t, c).task, rest, end)
    ensures Leads(t, [c] + rest, end)
  {
    assert ([c] + rest)[1..] == rest;
  }
}
