/**
  What each call and each logged event does to a task, field by field, and when a call is refused.

  Statuses are written out here, so that nothing rests on the definitions of live, waiting or finished.
 */
module TaskEffects {
  import opened Wrappers
  import opened TaskModel
  import opened TaskReplay
  import opened TaskOperations

  predicate Finished(t: Task) { t.status == TaskCompleted || t.status == TaskFailed || t.status == TaskCancelled }

  predicate Held(s: Step) { s.status == Claimed || s.status == Running }

  predicate Over(s: Step) { s.status == Completed || s.status == Failed || s.status == Cancelled }

  /** The step is as before, or has moved between pending and ready. */
  predicate AtMostPromoted(before: Step, after: Step) {
    || after == before
    || (before.status == Pending && after == before.(status := Ready))
    || (before.status == Ready && after == before.(status := Pending))
  }

  /** All steps but the i-th are at most promoted, and the task at most starts. */
  ghost predicate OnlyAt(t: Task, u: Task, i: nat) {
    && |u.steps| == |t.steps| && u.roots == t.roots
    && (u.status == t.status || (t.status == TaskPending && u.status == TaskRunning))
    && forall j :: 0 <= j < |t.steps| && j != i ==> AtMostPromoted(t.steps[j], u.steps[j])
  }

  lemma PromotedOnlyAt(t: Task, i: nat, s: Step)
    requires i < |t.steps|
    ensures OnlyAt(t, Promote(t.(steps := t.steps[i := s])), i)
    ensures AtMostPromoted(s, Promote(t.(steps := t.steps[i := s])).steps[i])
  {
  }

  // ---------------------------------------------------------------- status reports

  predicate Reportable(st: StepStatus) {
    st == Running || st == Blocked || st == Completed || st == Failed || st == Cancelled
  }

  /** What a report of the status asks of the log. */
  function Logged(st: StepStatus, lease: Time): Change
    requires Reportable(st)
  {
    match st
    case Running => StepStarted(Some(lease))
    case Blocked => StepBlocked
    case Completed => StepCompleted
    case Failed => StepFailed
    case Cancelled => StepCancelled
  }

  /**
    `update_step`.  A report is refused exactly for a finished task, a missing step, a status that cannot be
    reported, or the cancellation of a claimed or running step.  The step gets the status it reports, a lease exactly
    when that is running, and loses its owner exactly when it is blocked; the log says which.
   */
  lemma ReportExact(t: Task, id: StepId, request: Option<StepStatus>, lease: Time)
    ensures var i := Find(t.steps, id);
      UpdateStep(t, id, request, lease).Accepted? <==>
        && !Finished(t) && i < |t.steps|
        && (request.Some? ==> Reportable(request.value) && !(request.value == Cancelled && Held(t.steps[i])))
    ensures UpdateStep(t, id, request, lease).Accepted? ==>
      var (o, i) := (UpdateStep(t, id, request, lease), Find(t.steps, id));
      var (s, s') := (t.steps[i], o.task.steps[i]);
      && OnlyAt(t, o.task, i)
      && s'.id == id && s'.deps == s.deps && s'.required == s.required
      && o.events != []
      && match request
         case None => AtMostPromoted(s, s') && o.events[0] == StepEvent(id, StepUpdated)
         case Some(st) =>
           && s'.status == st
           && s'.lease == (if st == Running then Some(lease) else None)
           && s'.owner == (if st == Blocked then None else s.owner)
           && o.events[0] == StepEvent(id, Logged(st, lease))
  {
    var i := Find(t.steps, id);
    if UpdateStep(t, id, request, lease).Accepted? {
      PromotedOnlyAt(t, i, Requested(t.steps[i], request, lease).value.0);
    }
  }

  // ---------------------------------------------------------------- claims and lost workers

  /** `claim_step`: a ready step of a task that dispatches, for a run that holds none. */
  lemma ClaimExact(t: Task, id: StepId, owner: Owner, lease: Time)
    ensures var i := Find(t.steps, id);
      ClaimStep(t, id, owner, lease).Accepted? <==>
        && !Finished(t) && t.status != TaskBlocked && i < |t.steps| && t.steps[i].status == Ready
        && forall s :: s in t.steps && Held(s) && s.owner.Some? ==> s.owner.value.run != owner.run
    ensures ClaimStep(t, id, owner, lease).Accepted? ==>
      var (o, i) := (ClaimStep(t, id, owner, lease), Find(t.steps, id));
      && o.events == [StepEvent(id, StepClaimed(owner, lease))]
      && o.task == Task(t.status, t.roots,
                        t.steps[i := Step(id, Claimed, t.steps[i].deps, t.steps[i].required, Some(owner), Some(lease))])
  {
    if HoldsLive(t.steps, owner.run) {
      var k :| 0 <= k < |t.steps| && Live(t.steps[k]) && OwnedBy(t.steps[k], owner.run);
      assert t.steps[k] in t.steps && Held(t.steps[k]);
    }
  }

  /** `fail_unclosed_worker_step`: the first claimed or running step of the run fails and is freed; nothing else. */
  lemma LostWorkerExact(t: Task, run: nat)
    ensures FailUnclosed(t, run).Accepted?
    ensures var o := FailUnclosed(t, run);
      || (o == Accepted(t, [])
          && (Finished(t) || forall s :: s in t.steps && Held(s) ==> !OwnedBy(s, run)))
      || exists i :: 0 <= i < |t.steps| && !Finished(t) && Held(t.steps[i]) && OwnedBy(t.steps[i], run)
           && (forall j :: 0 <= j < i && Held(t.steps[j]) ==> !OwnedBy(t.steps[j], run))
           && o.task == t.(steps := t.steps[i := t.steps[i].(status := Failed, owner := None, lease := None)])
           && o.events == [StepEvent(t.steps[i].id, StepFailed)]
  {
    var i := FirstHeld(t.steps, run);
    if i < |t.steps| && !Finished(t) {
      assert Held(t.steps[i]) && OwnedBy(t.steps[i], run);
    }
  }

  // ---------------------------------------------------------------- completion and termination

  function Settled(s: Step, status: StepStatus): Step { s.(status := status, owner := None, lease := None) }

  /** The ids of the chosen steps, in the order of the steps. */
  function Chosen(steps: seq<Step>, keep: Step -> bool): seq<StepId> {
    if steps == [] then []
    else (if keep(steps[0]) then [steps[0].id] else []) + Chosen(steps[1..], keep)
  }

  /** One event for each id. */
  ghost predicate Reports(events: seq<Event>, ids: seq<StepId>, change: Change) {
    |events| == |ids| && forall k :: 0 <= k < |ids| ==> events[k] == StepEvent(ids[k], change)
  }

  /** One event for each id, then the one that ends the task. */
  ghost predicate EndsWith(events: seq<Event>, ids: seq<StepId>, change: Change, status: TaskStatus) {
    |events| == |ids| + 1 && Reports(events[..|ids|], ids, change) && events[|ids|] == TaskFinished(status, ids)
  }

  lemma ChosenFirst(first: Step, rest: seq<Step>, keep: Step -> bool)
    ensures Chosen([first] + rest, keep) == (if keep(first) then [first.id] else []) + Chosen(rest, keep)
  {
    assert ([first] + rest)[1..] == rest;
  }

  lemma Joined<T>(a: seq<T>, b: seq<T>, c: seq<T>)
    ensures a + b + c == a + (b + c)
  {
  }

  lemma {:induction false} ChosenLonger(steps: seq<Step>, last: Step, keep: Step -> bool)
    ensures Chosen(steps + [last], keep) == Chosen(steps, keep) + (if keep(last) then [last.id] else [])
    decreases |steps|
  {
    if steps == [] {
      ChosenFirst(last, [], keep);
      assert [last] + [] == [] + [last];
    } else {
      var first, rest := steps[0], steps[1..];
      ChosenLonger(rest, last, keep);
      ChosenFirst(first, rest, keep);
      ChosenFirst(first, rest + [last], keep);
      assert steps == [first] + rest;
      Joined([first], rest, [last]);
      Joined(if keep(first) then [first.id] else [], Chosen(rest, keep), if keep(last) then [last.id] else []);
    }
  }

  predicate Optional(s: Step) { !s.required && !Over(s) }

  predicate Open(s: Step) { !Over(s) }

  lemma {:induction false} LeftoversChosen(steps: seq<Step>, n: nat)
    requires n <= |steps|
    ensures LeftoverIds(steps, n) == Chosen(steps[..n], Optional)
  {
    if n > 0 {
      LeftoversChosen(steps, n - 1);
      ChosenLonger(steps[..n - 1], steps[n - 1], Optional);
      assert steps[..n] == steps[..n - 1] + [steps[n - 1]];
    }
  }

  lemma {:induction false} OpenChosen(steps: seq<Step>, n: nat)
    requires n <= |steps|
    ensures OpenIds(steps, n) == Chosen(steps[..n], Open)
  {
    if n > 0 {
      OpenChosen(steps, n - 1);
      ChosenLonger(steps[..n - 1], steps[n - 1], Open);
      assert steps[..n] == steps[..n - 1] + [steps[n - 1]];
    }
  }

  lemma CompletableIff(steps: seq<Step>)
    ensures Completable(steps) <==> forall s :: s in steps ==> !Held(s) && (s.required ==> s.status == Completed)
  {
    if Completable(steps) {
      forall s | s in steps
        ensures !Held(s) && (s.required ==> s.status == Completed)
      {
        var i :| 0 <= i < |steps| && steps[i] == s;
      }
    }
    if forall s :: s in steps ==> !Held(s) && (s.required ==> s.status == Completed) {
      forall i | 0 <= i < |steps|
        ensures !Live(steps[i]) && (steps[i].required ==> steps[i].status.Completed?)
      {
        assert steps[i] in steps;
      }
    }
  }

  /** The steps that are not over are cancelled. */
  ghost predicate Dropped(before: seq<Step>, after: seq<Step>) {
    && |after| == |before|
    && forall i :: 0 <= i < |before| ==>
         after[i] == if Over(before[i]) then before[i] else before[i].(status := Cancelled)
  }

  /**
    `complete_task`.  Accepted exactly when the task is not finished, no step is claimed or running and every required
    step is completed; then the steps that are not over, all of them optional, are cancelled, and the log says so.
   */
  lemma CompleteExact(t: Task)
    ensures CompleteTask(t).Accepted? <==>
      !Finished(t) && forall s :: s in t.steps ==> !Held(s) && (s.required ==> s.status == Completed)
    ensures CompleteTask(t).Accepted? ==>
      var o := CompleteTask(t);
      && o.task.status == TaskCompleted && o.task.roots == t.roots && Dropped(t.steps, o.task.steps)
      && EndsWith(o.events, Chosen(t.steps, Optional), StepCancelled, TaskCompleted)
  {
    CompletableIff(t.steps);
    LeftoversChosen(t.steps, |t.steps|);
    assert t.steps[..|t.steps|] == t.steps;
  }

  /**
    `fail_task` and `cancel_task`.  Refused exactly for a finished task; every step that is not over fails, or is
    cancelled, and loses owner and lease, and the log says so.
   */
  lemma TerminateExact(t: Task, cancel: bool)
    ensures TerminateTask(t, cancel).Accepted? <==> !Finished(t)
    ensures !Finished(t) ==>
      var o := TerminateTask(t, cancel);
      && o.task.status == (if cancel then TaskCancelled else TaskFailed)
      && o.task.roots == t.roots && |o.task.steps| == |t.steps|
      && (forall i :: 0 <= i < |t.steps| ==>
            o.task.steps[i] == if Over(t.steps[i]) then t.steps[i]
                               else Settled(t.steps[i], if cancel then Cancelled else Failed))
      && EndsWith(o.events, Chosen(t.steps, Open), if cancel then StepCancelled else StepFailed, o.task.status)
  {
    OpenChosen(t.steps, |t.steps|);
    assert t.steps[..|t.steps|] == t.steps;
  }

  // ---------------------------------------------------------------- expired leases

  /** Claimed or running, with a lease that ends at `now` or before. */
  predicate Lapsed(s: Step, now: Time) { Held(s) && s.lease.Some? && s.lease.value <= now }

  lemma {:induction false} ExpiredChosen(steps: seq<Step>, now: Time, n: nat)
    requires n <= |steps|
    ensures ExpiredIds(steps, now, n) == Chosen(steps[..n], s => Lapsed(s, now))
  {
    if n > 0 {
      ExpiredChosen(steps, now, n - 1);
      ChosenLonger(steps[..n - 1], steps[n - 1], s => Lapsed(s, now));
      assert steps[..n] == steps[..n - 1] + [steps[n - 1]];
    }
  }

  lemma {:induction false} ChosenNone(steps: seq<Step>, keep: Step -> bool)
    ensures Chosen(steps, keep) == [] <==> forall s :: s in steps ==> !keep(s)
    decreases |steps|
  {
    if steps != [] {
      ChosenNone(steps[1..], keep);
      assert steps == [steps[0]] + steps[1..];
    }
  }

  /** The steps whose lease has lapsed are freed, the others as before. */
  ghost predicate Frees(t: Task, now: Time, freed: Task) {
    && freed.status == t.status && freed.roots == t.roots && |freed.steps| == |t.steps|
    && forall i :: 0 <= i < |t.steps| ==>
         freed.steps[i] == if Lapsed(t.steps[i], now) then t.steps[i].(status := Pending, owner := None, lease := None)
                           else t.steps[i]
  }

  lemma FreedFrees(t: Task, now: Time)
    ensures Frees(t, now, t.(steps := FreeExpired(t.steps, now)))
  {
  }

  lemma NoneLapsed(t: Task, now: Time)
    ensures ExpiredIds(t.steps, now, |t.steps|) == Chosen(t.steps, s => Lapsed(s, now))
    ensures ExpiredIds(t.steps, now, |t.steps|) == [] <==> forall s :: s in t.steps ==> !Lapsed(s, now)
  {
    ExpiredChosen(t.steps, now, |t.steps|);
    assert t.steps[..|t.steps|] == t.steps;
    ChosenNone(t.steps, s => Lapsed(s, now));
  }

  /**
    `_reconcile_leases`.  Nothing happens to a finished task, nor when no lease has lapsed.  Else every step whose lease
    has lapsed is freed, in order in the log, and then the freed steps and the others are promoted.
   */
  lemma ReconcileLogged(t: Task, now: Time) returns (freed: Task, expiries: seq<Event>)
    ensures ReconcileLeases(t, now).Accepted?
    ensures Finished(t) || (forall s :: s in t.steps ==> !Lapsed(s, now)) ==> ReconcileLeases(t, now) == Accepted(t, [])
    ensures Frees(t, now, freed) && Reports(expiries, Chosen(t.steps, s => Lapsed(s, now)), StepLeaseExpired)
    ensures !Finished(t) && (exists s :: s in t.steps && Lapsed(s, now)) ==>
      ReconcileLeases(t, now) == Accepted(Promote(freed), expiries + PromotionEvents(freed, Promote(freed)))
  {
    NoneLapsed(t, now);
    FreedFrees(t, now);
    freed := t.(steps := FreeExpired(t.steps, now));
    expiries := StepEvents(ExpiredIds(t.steps, now, |t.steps|), StepLeaseExpired);
  }

  // ---------------------------------------------------------------- promotions in the log

  lemma {:induction false} ReadyEventsIff(before: seq<Step>, after: seq<Step>, n: nat, e: Event)
    requires n <= |before| == |after|
    ensures e in ReadyEvents(before, after, n) <==>
      exists i :: 0 <= i < n && before[i].status == Pending && after[i].status == Ready
        && e == StepEvent(after[i].id, StepReady)
  {
    if n > 0 {
      ReadyEventsIff(before, after, n - 1, e);
    }
  }

  /** The log says which steps became ready and that the task started, and nothing else. */
  lemma PromotionsLogged(before: Task, e: Event)
    ensures var after := Promote(before);
      e in PromotionEvents(before, after) <==>
        || (exists i :: 0 <= i < |before.steps| && before.steps[i].status == Pending && after.steps[i].status == Ready
              && e == StepEvent(before.steps[i].id, StepReady))
        || (e == TaskStarted && before.status == TaskPending && after.status == TaskRunning)
  {
    var after := Promote(before);
    ReadyEventsIff(before.steps, after.steps, |after.steps|, e);
  }

  // ---------------------------------------------------------------- replayed events

  /** The status a change leaves, unless promotion moves it on. */
  function StatusOf(c: Change, before: StepStatus): StepStatus {
    match c
    case StepClaimed(_, _) => Claimed
    case StepStarted(_) => Running
    case StepUpdated => before
    case StepReady => Ready
    case StepBlocked => Blocked
    case StepCompleted => Completed
    case StepFailed => Failed
    case StepCancelled => Cancelled
    case StepReopened => Pending
    case StepLeaseExpired => Pending
  }

  /**
    Replaying a step event: a missing step breaks the log; else the step gets the status the event names, the owner and
    the lease of a claim, the lease of a start that has one, no owner and no lease when blocked or expired, and no
    lease when it is over; every other step is at most promoted.
   */
  lemma StepEventExact(t: Task, id: StepId, c: Change)
    ensures var i := Find(t.steps, id);
      ReplayEvent(t, StepEvent(id, c)).Broken? <==> i == |t.steps|
    ensures Has(t.steps, id) ==>
      var (r, i) := (ReplayEvent(t, StepEvent(id, c)), Find(t.steps, id));
      && r.Rebuilt? && OnlyAt(t, r.task, i)
      && AtMostPromoted(
           Step(id, StatusOf(c, t.steps[i].status), t.steps[i].deps, t.steps[i].required,
                if c.StepClaimed? then Some(c.owner)
                else if c.StepBlocked? || c.StepLeaseExpired? then None
                else t.steps[i].owner,
                if c.StepClaimed? then Some(c.lease)
                else if c.StepStarted? && c.renewed.Some? then c.renewed
                else if c.StepStarted? || c.StepUpdated? || c.StepReady? || c.StepReopened? then t.steps[i].lease
                else None),
           r.task.steps[i])
  {
    var i := Find(t.steps, id);
    if i < |t.steps| {
      PromotedOnlyAt(t, i, ApplyChange(t.steps[i], c));
    }
  }

  /** Replaying an event of the whole task: a snapshot replaces it, a start or a reopening sets its status. */
  lemma TaskEventExact(t: Task, other: Task)
    ensures ReplayEvent(t, TaskUpdated(other)) == Rebuilt(other)
    ensures var r := ReplayEvent(t, TaskCreated(other));
      r.Rebuilt? && r.task.status == other.status && r.task.steps == other.steps && r.task.roots == Roots(other.steps)
    ensures ReplayEvent(t, TaskStarted) == Rebuilt(t.(status := TaskRunning))
    ensures var r := ReplayEvent(t, TaskReopened);
      && r.Rebuilt? && (r.task.status == TaskPending || r.task.status == TaskRunning) && r.task.roots == t.roots
      && |r.task.steps| == |t.steps|
      && forall j :: 0 <= j < |t.steps| ==> AtMostPromoted(t.steps[j], r.task.steps[j])
  {
  }

  /** Exactly the steps with these ids are settled. */
  ghost predicate SettledBy(steps: seq<Step>, status: StepStatus, ids: seq<StepId>, after: seq<Step>) {
    && |after| == |steps|
    && forall i :: 0 <= i < |steps| ==> after[i] == if steps[i].id in ids then Settled(steps[i], status) else steps[i]
  }

  predicate AllKnown(steps: seq<Step>, ids: seq<StepId>) { forall id :: id in ids ==> Has(steps, id) }

  lemma LastKnown(steps: seq<Step>, front: seq<StepId>, id: StepId, ids: seq<StepId>)
    requires ids == front + [id]
    ensures AllKnown(steps, ids) <==> AllKnown(steps, front) && Has(steps, id)
    ensures forall x :: x in ids <==> x in front || x == id
  {
    assert id in ids;
  }

  lemma {:induction false} SettledListed(steps: seq<Step>, status: StepStatus, ids: seq<StepId>)
    requires UniqueIds(steps)
    ensures SettleListed(steps, status, ids).Some? <==> AllKnown(steps, ids)
    ensures AllKnown(steps, ids) ==> SettledBy(steps, status, ids, SettleListed(steps, status, ids).value)
    decreases |ids|
  {
    if ids != [] {
      var front, id := ids[..|ids| - 1], ids[|ids| - 1];
      SettledListed(steps, status, front);
      assert ids == front + [id];
      LastKnown(steps, front, id, ids);
      if SettleListed(steps, status, front).Some? {
        SettledOne(steps, status, front, ids, id, SettleListed(steps, status, front).value);
      }
    }
  }

  lemma SettledOne(steps: seq<Step>, status: StepStatus, front: seq<StepId>, ids: seq<StepId>, id: StepId,
                   done: seq<Step>)
    requires UniqueIds(steps) && SettledBy(steps, status, front, done)
    requires forall x :: x in ids <==> x in front || x == id
    ensures Find(done, id) == Find(steps, id)
    ensures var k := Find(steps, id);
      k < |steps| ==> SettledBy(steps, status, ids, done[k := Settled(done[k], status)])
  {
    SettledFind(steps, status, front, done, id);
    if Has(steps, id) {
      var k := Find(steps, id);
      forall i | 0 <= i < |steps| && i != k
        ensures steps[i].id != id
      {
      }
    }
  }

  lemma SettledFind(steps: seq<Step>, status: StepStatus, ids: seq<StepId>, done: seq<Step>, id: StepId)
    requires SettledBy(steps, status, ids, done)
    ensures Find(done, id) == Find(steps, id)
  {
    assert forall i :: 0 <= i < |steps| ==> done[i].id == steps[i].id;
    assert Find(done, id) < |steps| ==> steps[Find(done, id)].id == id;
    assert Find(steps, id) < |done| ==> done[Find(steps, id)].id == id;
  }

  /** Replaying the end of a task settles the steps the event lists, and no other. */
  lemma EndEventExact(t: Task, status: TaskStatus, ids: seq<StepId>)
    requires UniqueIds(t.steps)
    ensures ReplayEvent(t, TaskFinished(status, ids)).Broken? <==> !AllKnown(t.steps, ids)
    ensures AllKnown(t.steps, ids) ==>
      var r := ReplayEvent(t, TaskFinished(status, ids));
      && r.Rebuilt? && r.task.status == status && r.task.roots == t.roots
      && SettledBy(t.steps, if status == TaskFailed then Failed else Cancelled, ids, r.task.steps)
  {
    SettledListed(t.steps, SettledStatus(status), ids);
  }
}
