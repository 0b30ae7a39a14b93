/**
  What one accepted operation guarantees: the next task is well formed, and replaying its log
  batch, event by event, stays well formed and ends in agreement with the next task.
 */
module TaskSafety {
  import opened Wrappers
  import opened TaskModel
  import opened TaskReplay
  import opened TaskOperations

  /** The next task is good, and its batch tracks to a task that agrees with it. */
  ghost predicate Faithful(t: Task, o: Outcome, owners: bool) {
    o.Accepted? ==> Good(o.task, owners) && exists u :: Tracks(t, o.events, u, owners) && Agrees(u, o.task, owners)
  }

  lemma FaithfulExactly(t: Task, o: Outcome, owners: bool)
    requires o.Accepted? && Good(o.task, owners) && Tracks(t, o.events, o.task, owners)
    ensures Faithful(t, o, owners)
  {
    AgreesReflexive(o.task, owners);
  }

  lemma FaithfulVia(t: Task, o: Outcome, u: Task, owners: bool)
    requires o.Accepted? && Good(o.task, owners) && Tracks(t, o.events, u, owners) && Agrees(u, o.task, owners)
    ensures Faithful(t, o, owners)
  {
  }

  // ---------------------------------------------------------------- promotion and its events

  lemma PromoteWF(t: Task)
    requires SoundDag(t.steps) && t.roots == Roots(t.steps) && LeasesOnLive(t.steps) && !TerminalTask(t)
    ensures WF(Promote(t)) && SameShape(t.steps, Promote(t).steps)
  {
    PromoteReadyLaws(t.steps);
    SameShapeSound(t.steps, Promote(t).steps);
    SameShapeRoots(t.steps, Promote(t).steps);
  }

  /** Promotion makes nothing live. */
  lemma PromoteClaims(t: Task)
    requires UniqueClaims(t)
    ensures UniqueClaims(Promote(t))
  {
    var u := Promote(t);
    assert forall i :: 0 <= i < |u.steps| && Live(u.steps[i]) ==> u.steps[i] == t.steps[i];
  }

  lemma StillStep(t: Task, i: nat, e: Event)
    requires WF(t) && i < |t.steps|
    requires e == StepEvent(t.steps[i].id, StepReady) && t.steps[i].status.Ready?
    ensures ReplayEvent(t, e) == Rebuilt(t) && StartsLive(t, e)
  {
    FindUnique(t.steps, i);
    assert t.steps[i := ApplyChange(t.steps[i], StepReady)] == t.steps;
    PromoteFixpoint(t);
  }

  /** The ready and running events that follow a change repeat what replay has already derived. */
  lemma {:induction false} ReadyEventsStill(before: seq<Step>, t: Task, n: nat)
    requires WF(t) && n <= |before| == |t.steps|
    ensures forall e :: e in ReadyEvents(before, t.steps, n) ==> ReplayEvent(t, e) == Rebuilt(t) && StartsLive(t, e)
  {
    if n > 0 {
      ReadyEventsStill(before, t, n - 1);
      if before[n - 1].status.Pending? && t.steps[n - 1].status.Ready? {
        StillStep(t, n - 1, StepEvent(t.steps[n - 1].id, StepReady));
      }
    }
  }

  lemma PromotionEventsStill(before: Task, t: Task)
    requires WF(t) && |before.steps| == |t.steps|
    ensures forall e :: e in PromotionEvents(before, t) ==> ReplayEvent(t, e) == Rebuilt(t) && StartsLive(t, e)
  {
    ReadyEventsStill(before.steps, t, |t.steps|);
  }

  /** One event that reaches the next task, then events that leave it alone. */
  lemma TracksThenStill(t: Task, e: Event, next: Task, still: seq<Event>, owners: bool)
    requires owners ==> StartsLive(t, e)
    requires ReplayEvent(t, e) == Rebuilt(next) && Good(next, owners)
    requires forall x :: x in still ==> ReplayEvent(next, x) == Rebuilt(next) && StartsLive(next, x)
    ensures Tracks(t, [e] + still, next, owners)
  {
    TracksOne(t, e, next, owners);
    TracksStill(next, still, owners);
    TracksAppend(t, [e], next, still, next, owners);
  }

  // ---------------------------------------------------------------- single-step changes

  /** Claims stay unique when no step becomes live and no live step changes owner. */
  lemma ClaimsShrink(t: Task, u: Task)
    requires UniqueClaims(t) && |t.steps| == |u.steps|
    requires forall i :: 0 <= i < |u.steps| && Live(u.steps[i]) ==>
      Live(t.steps[i]) && u.steps[i].owner == t.steps[i].owner
    ensures UniqueClaims(u)
  {
  }

  /** A claim's event replays to the claimed task. */
  lemma ClaimReplays(t: Task, id: StepId, owner: Owner, lease: Time)
    requires WF(t) && ClaimStep(t, id, owner, lease).Accepted?
    ensures var u := ClaimStep(t, id, owner, lease).task;
      WF(u) && ReplayEvent(t, StepEvent(id, StepClaimed(owner, lease))) == Rebuilt(u)
  {
    var u := ClaimStep(t, id, owner, lease).task;
    var i := Find(t.steps, id);
    var s := t.steps[i].(status := Claimed, owner := Some(owner), lease := Some(lease));
    LocalChange(t, i, s);
    ChangeKeepsWF(t, i, s);
    assert AnyActive(t.steps);
    assert Promote(u).steps == u.steps;
  }

  lemma ClaimFaithful(t: Task, id: StepId, owner: Owner, lease: Time, owners: bool)
    requires Good(t, owners)
    ensures Faithful(t, ClaimStep(t, id, owner, lease), owners)
  {
    var o := ClaimStep(t, id, owner, lease);
    if o.Accepted? {
      ClaimReplays(t, id, owner, lease);
      if owners {
        var i := Find(t.steps, id);
        forall j | 0 <= j < |t.steps| && j != i && Live(o.task.steps[j]) && o.task.steps[j].owner.Some?
          ensures o.task.steps[j].owner.value.run != owner.run
        {
          assert o.task.steps[j] == t.steps[j];
          assert !OwnedBy(t.steps[j], owner.run);
        }
        assert UniqueClaims(o.task);
      }
      TracksOne(t, StepEvent(id, StepClaimed(owner, lease)), o.task, owners);
      FaithfulExactly(t, o, owners);
    }
  }

  lemma RequestedIsChange(s: Step, request: Option<StepStatus>, lease: Time)
    ensures var r := Requested(s, request, lease); r.Some? ==>
      && r.value.0 == ApplyChange(s, r.value.1)
      && r.value.0.id == s.id && r.value.0.deps == s.deps && r.value.0.required == s.required
      && ((s.lease.Some? ==> Live(s)) ==> (r.value.0.lease.Some? ==> Live(r.value.0)))
  {
  }

  lemma ReportWF(t: Task, i: nat, request: Option<StepStatus>, lease: Time)
    requires WF(t) && !TerminalTask(t) && i < |t.steps| && Requested(t.steps[i], request, lease).Some?
    ensures var (s, change) := Requested(t.steps[i], request, lease).value;
      var u := Promote(t.(steps := t.steps[i := s]));
      WF(u) && SameShape(t.steps, u.steps) && u == ReplayStep(t, i, change)
  {
    RequestedIsChange(t.steps[i], request, lease);
    assert t.steps[i].lease.Some? ==> Live(t.steps[i]);
    ChangeKeepsWF(t, i, Requested(t.steps[i], request, lease).value.0);
  }

  lemma UpdateStepWF(t: Task, id: StepId, request: Option<StepStatus>, lease: Time)
    requires WF(t)
    ensures var o := UpdateStep(t, id, request, lease);
      o.Accepted? ==>
        && WF(o.task) && SameShape(t.steps, o.task.steps)
        && ReplayEvent(t, o.events[0]) == Rebuilt(o.task)
  {
    var i := Find(t.steps, id);
    if !TerminalTask(t) && i < |t.steps| && Requested(t.steps[i], request, lease).Some? {
      ReportWF(t, i, request, lease);
    }
  }

  /** A report that starts only live steps makes nothing live. */
  lemma ReportClaims(t: Task, i: nat, request: Option<StepStatus>, lease: Time)
    requires UniqueClaims(t) && i < |t.steps| && (request == Some(Running) ==> Live(t.steps[i]))
    requires Requested(t.steps[i], request, lease).Some?
    ensures UniqueClaims(Promote(t.(steps := t.steps[i := Requested(t.steps[i], request, lease).value.0])))
  {
    var u := t.(steps := t.steps[i := Requested(t.steps[i], request, lease).value.0]);
    ClaimsShrink(t, u);
    PromoteClaims(u);
  }

  lemma ReportStartsLive(t: Task, i: nat, id: StepId, request: Option<StepStatus>, lease: Time)
    requires i == Find(t.steps, id) < |t.steps| && (request == Some(Running) ==> Live(t.steps[i]))
    requires Requested(t.steps[i], request, lease).Some?
    ensures StartsLive(t, StepEvent(id, Requested(t.steps[i], request, lease).value.1))
  {
  }

  lemma UpdateStepClaims(t: Task, id: StepId, request: Option<StepStatus>, lease: Time)
    requires UniqueClaims(t) && UpdateStep(t, id, request, lease).Accepted?
    requires request == Some(Running) ==> Live(t.steps[Find(t.steps, id)])
    ensures UniqueClaims(UpdateStep(t, id, request, lease).task)
    ensures StartsLive(t, UpdateStep(t, id, request, lease).events[0])
  {
    var i := Find(t.steps, id);
    ReportClaims(t, i, request, lease);
    ReportStartsLive(t, i, id, request, lease);
  }

  lemma UpdateStepFaithful(t: Task, id: StepId, request: Option<StepStatus>, lease: Time, owners: bool)
    requires Good(t, owners)
    requires owners && request == Some(Running) && Has(t.steps, id) ==> Live(t.steps[Find(t.steps, id)])
    ensures Faithful(t, UpdateStep(t, id, request, lease), owners)
  {
    var o := UpdateStep(t, id, request, lease);
    if o.Accepted? {
      UpdateStepWF(t, id, request, lease);
      if owners {
        UpdateStepClaims(t, id, request, lease);
      }
      var i := Find(t.steps, id);
      var before := t.(steps := t.steps[i := Requested(t.steps[i], request, lease).value.0]);
      PromotionEventsStill(before, o.task);
      TracksThenStill(t, o.events[0], o.task, PromotionEvents(before, o.task), owners);
      FaithfulExactly(t, o, owners);
    }
  }

  /** Replay keeps the owner of the failed step, the service clears it; nothing else differs. */
  lemma FailUnclosedFaithful(t: Task, run: nat, owners: bool)
    requires Good(t, owners)
    ensures Faithful(t, FailUnclosed(t, run), owners)
  {
    var i := FirstHeld(t.steps, run);
    var o := FailUnclosed(t, run);
    if !TerminalTask(t) && i < |t.steps| {
      var u := t.(steps := t.steps[i := ApplyChange(t.steps[i], StepFailed)]);
      RetireOne(t, StepFailed, i, owners);
      assert o.task == u.(steps := u.steps[i := u.steps[i].(owner := None)]);
      DeadOwner(u, i, owners);
      AgreesGood(u, o.task, owners);
      TracksOne(t, StepEvent(t.steps[i].id, StepFailed), u, owners);
      FaithfulVia(t, o, u, owners);
    } else {
      FaithfulExactly(t, o, owners);
    }
  }

  lemma DeadOwner(u: Task, i: nat, owners: bool)
    requires i < |u.steps| && !Live(u.steps[i])
    ensures Agrees(u, u.(steps := u.steps[i := u.steps[i].(owner := None)]), owners)
  {
  }

  /** Retiring an uncompleted step to blocked, failed or cancelled: promotion then has nothing to do. */
  lemma QuietChange(t: Task, i: nat, s: Step)
    requires WF(t) && !TerminalTask(t) && i < |t.steps|
    requires s.id == t.steps[i].id && s.deps == t.steps[i].deps && s.required == t.steps[i].required
    requires !t.steps[i].status.Completed? && s.lease.None?
    requires s.status.Blocked? || s.status.Failed? || s.status.Cancelled?
    ensures Promote(t.(steps := t.steps[i := s])) == t.(steps := t.steps[i := s])
    ensures WF(t.(steps := t.steps[i := s]))
  {
    LocalChange(t, i, s);
    ChangeKeepsWF(t, i, s);
    if AnyActive(t.steps[i := s]) {
      var j :| 0 <= j < |t.steps| && (t.steps[i := s][j].status.Ready? || Live(t.steps[i := s][j]));
      assert t.steps[j] == t.steps[i := s][j];
    }
  }

  // ---------------------------------------------------------------- completion and termination

  predicate Retires(c: Change) { c.StepFailed? || c.StepCancelled? }

  /** The first n steps retired as their events do it, the rest as they were. */
  function RetireFirst(steps: seq<Step>, c: Change, n: nat): seq<Step>
    requires n <= |steps|
  {
    seq(|steps|, i requires 0 <= i < |steps| =>
      if i < n && !TerminalStep(steps[i]) then ApplyChange(steps[i], c) else steps[i])
  }

  lemma RetireOne(v: Task, c: Change, i: nat, owners: bool)
    requires Good(v, owners) && !TerminalTask(v) && Retires(c)
    requires i < |v.steps| && !TerminalStep(v.steps[i])
    ensures var u := v.(steps := v.steps[i := ApplyChange(v.steps[i], c)]);
      ReplayEvent(v, StepEvent(v.steps[i].id, c)) == Rebuilt(u) && Good(u, owners)
  {
    FindUnique(v.steps, i);
    QuietChange(v, i, ApplyChange(v.steps[i], c));
    if owners {
      ClaimsShrink(v, v.(steps := v.steps[i := ApplyChange(v.steps[i], c)]));
    }
  }

  lemma RetireFirstNext(steps: seq<Step>, c: Change, i: nat)
    requires i < |steps|
    ensures RetireFirst(steps, c, i + 1)
         == if TerminalStep(steps[i]) then RetireFirst(steps, c, i)
            else RetireFirst(steps, c, i)[i := ApplyChange(steps[i], c)]
    ensures RetireFirst(steps, c, i)[i] == steps[i]
  {
  }

  lemma RetireNone(steps: seq<Step>, c: Change)
    ensures RetireFirst(steps, c, 0) == steps && StepEvents(OpenIds(steps, 0), c) == []
  {
  }

  lemma {:induction false} RetireTracks(t: Task, c: Change, n: nat, owners: bool)
    requires Good(t, owners) && !TerminalTask(t) && Retires(c) && n <= |t.steps|
    ensures Good(t.(steps := RetireFirst(t.steps, c, n)), owners)
    ensures Tracks(t, StepEvents(OpenIds(t.steps, n), c), t.(steps := RetireFirst(t.steps, c, n)), owners)
  {
    if n == 0 {
      RetireNone(t.steps, c);
    } else {
      RetireTracks(t, c, n - 1, owners);
      RetireFirstNext(t.steps, c, n - 1);
      RetireExtends(t, t.(steps := RetireFirst(t.steps, c, n - 1)), c, n - 1, owners);
    }
  }

  lemma RetireExtends(t: Task, v: Task, c: Change, i: nat, owners: bool)
    requires i < |t.steps| == |v.steps| && v.steps[i] == t.steps[i]
    requires Good(v, owners) && !TerminalTask(v) && Retires(c)
    requires Tracks(t, StepEvents(OpenIds(t.steps, i), c), v, owners)
    ensures var u := if TerminalStep(t.steps[i]) then v else v.(steps := v.steps[i := ApplyChange(t.steps[i], c)]);
      Good(u, owners) && Tracks(t, StepEvents(OpenIds(t.steps, i + 1), c), u, owners)
  {
    var ids := OpenIds(t.steps, i);
    OpenIdsNext(t.steps, i);
    if !TerminalStep(t.steps[i]) {
      RetireOne(v, c, i, owners);
      AppendExactly(t, ids, c, v, t.steps[i].id, v.(steps := v.steps[i := ApplyChange(t.steps[i], c)]), owners);
    }
  }

  /** Tracking a list of step events extends by one more. */
  lemma AppendExactly(t: Task, ids: seq<StepId>, c: Change, v: Task, id: StepId, u: Task, owners: bool)
    requires Tracks(t, StepEvents(ids, c), v, owners) && !c.StepStarted?
    requires ReplayEvent(v, StepEvent(id, c)) == Rebuilt(u) && Good(u, owners)
    ensures Tracks(t, StepEvents(ids + [id], c), u, owners)
  {
    TracksOne(v, StepEvent(id, c), u, owners);
    TracksAppend(t, StepEvents(ids, c), v, [StepEvent(id, c)], u, owners);
    assert StepEvents(ids + [id], c) == StepEvents(ids, c) + [StepEvent(id, c)];
  }

  /** `mid` with the steps that were open among the first n of `steps` settled. */
  function SettleFirst(steps: seq<Step>, mid: seq<Step>, status: StepStatus, n: nat): seq<Step>
    requires n <= |steps| == |mid|
  {
    seq(|mid|, i requires 0 <= i < |mid| =>
      if i < n && !TerminalStep(steps[i]) then mid[i].(status := status, owner := None, lease := None) else mid[i])
  }

  lemma SettleNext(steps: seq<Step>, mid: seq<Step>, status: StepStatus, i: nat)
    requires i < |steps| && SameShape(steps, mid) && UniqueIds(steps)
    ensures var done := SettleFirst(steps, mid, status, i);
      && Find(done, steps[i].id) == i
      && SettleFirst(steps, mid, status, i + 1)
         == if TerminalStep(steps[i]) then done else done[i := done[i].(status := status, owner := None, lease := None)]
  {
    var done := SettleFirst(steps, mid, status, i);
    SettleShape(steps, mid, status, i);
    SettleOne(steps, mid, status, i, done);
    FindUnique(steps, i);
    SameShapeFind(steps, done, steps[i].id);
  }

  lemma SettleShape(steps: seq<Step>, mid: seq<Step>, status: StepStatus, i: nat)
    requires i <= |steps| && SameShape(steps, mid)
    ensures SameShape(steps, SettleFirst(steps, mid, status, i))
  {
  }

  lemma SettleOne(steps: seq<Step>, mid: seq<Step>, status: StepStatus, i: nat, done: seq<Step>)
    requires i < |steps| == |mid| && done == SettleFirst(steps, mid, status, i)
    ensures SettleFirst(steps, mid, status, i + 1)
         == if TerminalStep(steps[i]) then done else done[i := done[i].(status := status, owner := None, lease := None)]
  {
  }

  lemma SettleListedNext(mid: seq<Step>, status: StepStatus, ids: seq<StepId>, id: StepId)
    requires SettleListed(mid, status, ids).Some?
    requires Has(SettleListed(mid, status, ids).value, id)
    ensures var done := SettleListed(mid, status, ids).value;
      var i := Find(done, id);
      SettleListed(mid, status, ids + [id]) == Some(done[i := done[i].(status := status, owner := None, lease := None)])
  {
    assert (ids + [id])[..|ids|] == ids;
  }

  lemma SettleExtends(steps: seq<Step>, mid: seq<Step>, status: StepStatus, i: nat)
    requires i < |steps| && SameShape(steps, mid) && UniqueIds(steps)
    requires SettleListed(mid, status, OpenIds(steps, i)) == Some(SettleFirst(steps, mid, status, i))
    ensures SettleListed(mid, status, OpenIds(steps, i + 1)) == Some(SettleFirst(steps, mid, status, i + 1))
  {
    SettleNext(steps, mid, status, i);
    OpenIdsNext(steps, i);
    if !TerminalStep(steps[i]) {
      SettleListedNext(mid, status, OpenIds(steps, i), steps[i].id);
    }
  }

  lemma SettleNone(steps: seq<Step>, mid: seq<Step>, status: StepStatus)
    requires |steps| == |mid|
    ensures SettleFirst(steps, mid, status, 0) == mid
  {
  }

  lemma {:induction false} SettleOpen(steps: seq<Step>, mid: seq<Step>, status: StepStatus, n: nat)
    requires n <= |steps| && SameShape(steps, mid) && UniqueIds(steps)
    ensures SettleListed(mid, status, OpenIds(steps, n)) == Some(SettleFirst(steps, mid, status, n))
  {
    if n == 0 {
      SettleNone(steps, mid, status);
    } else {
      SettleOpen(steps, mid, status, n - 1);
      SettleExtends(steps, mid, status, n - 1);
    }
  }

  lemma OpenIdsNext(steps: seq<Step>, i: nat)
    requires i < |steps|
    ensures OpenIds(steps, i + 1)
         == if TerminalStep(steps[i]) then OpenIds(steps, i) else OpenIds(steps, i) + [steps[i].id]
  {
  }

  /** How a terminating operation leaves one step: open steps end, finished ones stay. */
  predicate EndsAs(s: Step, goal: Step, status: StepStatus) {
    && TerminalStep(goal)
    && (TerminalStep(s) ==> goal == s)
    && (!TerminalStep(s) ==> goal.(owner := None) == s.(status := status, owner := None, lease := None))
  }

  lemma SettledAgrees(s: Step, goal: Step, c: Change, status: StepStatus, owners: bool)
    requires Retires(c) && (status.Failed? || status.Cancelled?) && EndsAs(s, goal, status)
    ensures
      var last := if TerminalStep(s) then s else ApplyChange(s, c).(status := status, owner := None, lease := None);
      StepAgrees(goal, last, owners)
  {
  }

  /** The closing event settles what the step events retired. */
  lemma FinishReplays(t: Task, c: Change, status: TaskStatus, goal: Task, owners: bool)
    requires UniqueIds(t.steps) && Retires(c)
    requires goal.status == status && goal.roots == t.roots && |goal.steps| == |t.steps|
    requires forall i :: 0 <= i < |t.steps| ==> EndsAs(t.steps[i], goal.steps[i], SettledStatus(status))
    ensures var r := ReplayEvent(t.(steps := RetireFirst(t.steps, c, |t.steps|)),
                                 TaskFinished(status, OpenIds(t.steps, |t.steps|)));
      r.Rebuilt? && Agrees(goal, r.task, owners)
  {
    var n := |t.steps|;
    var mid := RetireFirst(t.steps, c, n);
    SettleOpen(t.steps, mid, SettledStatus(status), n);
    forall i | 0 <= i < n
      ensures StepAgrees(goal.steps[i], SettleFirst(t.steps, mid, SettledStatus(status), n)[i], owners)
    {
      SettledAgrees(t.steps[i], goal.steps[i], c, SettledStatus(status), owners);
    }
  }

  /** The whole batch of a terminating operation. */
  lemma FinishFaithful(t: Task, c: Change, o: Outcome, owners: bool)
    requires Good(t, owners) && !TerminalTask(t) && Retires(c) && o.Accepted?
    requires Good(o.task, owners) && o.task.roots == t.roots && |o.task.steps| == |t.steps|
    requires forall i :: 0 <= i < |t.steps| ==> EndsAs(t.steps[i], o.task.steps[i], SettledStatus(o.task.status))
    requires var ids := OpenIds(t.steps, |t.steps|);
      o.events == StepEvents(ids, c) + [TaskFinished(o.task.status, ids)]
    ensures Faithful(t, o, owners)
  {
    var ids := OpenIds(t.steps, |t.steps|);
    var v := t.(steps := RetireFirst(t.steps, c, |t.steps|));
    var e := TaskFinished(o.task.status, ids);
    RetireTracks(t, c, |t.steps|, owners);
    FinishReplays(t, c, o.task.status, o.task, owners);
    var u := ReplayEvent(v, e).task;
    AgreesGood(o.task, u, owners);
    AgreesSymmetric(o.task, u, owners);
    TracksOne(v, e, u, owners);
    TracksAppend(t, StepEvents(ids, c), v, [e], u, owners);
    FaithfulVia(t, o, u, owners);
  }

  /** A finished task over the same DAG is well formed once all its steps are finished. */
  lemma FinishedWF(t: Task, goal: Task)
    requires WF(t) && TerminalTask(goal) && goal.roots == t.roots && SameShape(t.steps, goal.steps)
    requires forall i :: 0 <= i < |goal.steps| ==> TerminalStep(goal.steps[i]) && goal.steps[i].lease.None?
    requires forall i :: 0 <= i < |goal.steps| && goal.status.TaskCompleted? && goal.steps[i].required ==>
      goal.steps[i].status.Completed?
    ensures WF(goal) && UniqueClaims(goal)
  {
    SameShapeSound(t.steps, goal.steps);
    SameShapeRoots(t.steps, goal.steps);
  }

  lemma TerminateFaithful(t: Task, cancel: bool, owners: bool)
    requires Good(t, owners)
    ensures Faithful(t, TerminateTask(t, cancel), owners)
  {
    if !TerminalTask(t) {
      var goal := TerminateTask(t, cancel).task;
      FinishedWF(t, goal);
      FinishFaithful(t, if cancel then StepCancelled else StepFailed, TerminateTask(t, cancel), owners);
    }
  }

  lemma {:induction false} LeftoversAreOpen(steps: seq<Step>, n: nat)
    requires Completable(steps) && n <= |steps|
    ensures LeftoverIds(steps, n) == OpenIds(steps, n)
  {
    if n > 0 {
      LeftoversAreOpen(steps, n - 1);
    }
  }

  lemma CompleteFaithful(t: Task, owners: bool)
    requires Good(t, owners)
    ensures Faithful(t, CompleteTask(t), owners)
  {
    if CompleteTask(t).Accepted? {
      var goal := CompleteTask(t).task;
      LeftoversAreOpen(t.steps, |t.steps|);
      FinishedWF(t, goal);
      FinishFaithful(t, StepCancelled, CompleteTask(t), owners);
    }
  }

  // ---------------------------------------------------------------- lease expiry

  function FreeFirst(steps: seq<Step>, now: Time, n: nat): seq<Step>
    requires n <= |steps|
  {
    seq(|steps|, i requires 0 <= i < |steps| => if i < n then Freed(steps[i], now) else steps[i])
  }

  /** The task after the first n steps have been looked at and promotion has run. */
  function Relaxed(t: Task, now: Time, n: nat): Task
    requires n <= |t.steps|
  {
    Promote(t.(steps := FreeFirst(t.steps, now, n)))
  }

  lemma FreeFirstShape(steps: seq<Step>, now: Time, n: nat)
    requires n <= |steps|
    ensures SameShape(steps, FreeFirst(steps, now, n))
    ensures CompletedIds(FreeFirst(steps, now, n)) == CompletedIds(steps)
    ensures LeasesOnLive(steps) ==> LeasesOnLive(FreeFirst(steps, now, n))
  {
    CompletedAgree(steps, FreeFirst(steps, now, n));
  }

  /** Looking at the step takes replay from v to u. */
  predicate ExpiresTo(v: Task, s: Step, now: Time, u: Task) {
    if Expired(s, now) then ReplayEvent(v, StepEvent(s.id, StepLeaseExpired)) == Rebuilt(u) else u == v
  }

  lemma RelaxedGood(t: Task, now: Time, n: nat, owners: bool)
    requires Good(t, owners) && !TerminalTask(t) && n <= |t.steps|
    ensures Good(Relaxed(t, now, n), owners)
    ensures SameShape(t.steps, Relaxed(t, now, n).steps)
    ensures CompletedIds(FreeFirst(t.steps, now, n)) == CompletedIds(t.steps)
  {
    var v := t.(steps := FreeFirst(t.steps, now, n));
    FreeFirstShape(t.steps, now, n);
    SameShapeSound(t.steps, v.steps);
    SameShapeRoots(t.steps, v.steps);
    PromoteWF(v);
    if owners {
      ClaimsShrink(t, v);
      PromoteClaims(v);
    }
  }

  lemma {:induction false} ExpiredIdsOf(steps: seq<Step>, now: Time, n: nat, i: nat)
    requires UniqueIds(steps) && i < |steps| && n <= |steps|
    ensures steps[i].id in ExpiredIds(steps, now, n) <==> i < n && Expired(steps[i], now)
  {
    if n > 0 {
      ExpiredIdsOf(steps, now, n - 1, i);
    }
  }

  /** The expiry events of the first n steps replay to the relaxed task. */
  ghost predicate TracksExpiry(t: Task, now: Time, n: nat, v: Task, owners: bool)
    requires n <= |t.steps|
  {
    Tracks(t, StepEvents(ExpiredIds(t.steps, now, n), StepLeaseExpired), v, owners)
  }

  lemma {:induction false} ExpiryTracks(t: Task, now: Time, n: nat, owners: bool)
    requires Good(t, owners) && !TerminalTask(t) && n <= |t.steps|
    ensures TracksExpiry(t, now, n, Relaxed(t, now, n), owners)
  {
    if n == 0 {
      RelaxedStart(t, now, owners);
    } else {
      ExpiryTracks(t, now, n - 1, owners);
      ExpiryStep(t, now, n - 1, owners);
    }
  }

  lemma ExpiryStep(t: Task, now: Time, i: nat, owners: bool)
    requires Good(t, owners) && !TerminalTask(t) && i < |t.steps|
    requires TracksExpiry(t, now, i, Relaxed(t, now, i), owners)
    ensures TracksExpiry(t, now, i + 1, Relaxed(t, now, i + 1), owners)
  {
    RelaxedNext(t, now, i, owners);
    RelaxedIsGood(t, now, i + 1, owners);
    ExpiryExtends(t, now, i, Relaxed(t, now, i), Relaxed(t, now, i + 1), owners);
  }

  lemma RelaxedIsGood(t: Task, now: Time, n: nat, owners: bool)
    requires Good(t, owners) && !TerminalTask(t) && n <= |t.steps|
    ensures Good(Relaxed(t, now, n), owners)
  {
    RelaxedGood(t, now, n, owners);
  }

  lemma ExpiredIdsNext(steps: seq<Step>, now: Time, i: nat)
    requires i < |steps|
    ensures ExpiredIds(steps, now, i + 1)
         == if Expired(steps[i], now) then ExpiredIds(steps, now, i) + [steps[i].id] else ExpiredIds(steps, now, i)
  {
  }

  lemma ExpiryExtends(t: Task, now: Time, i: nat, v: Task, u: Task, owners: bool)
    requires i < |t.steps| && TracksExpiry(t, now, i, v, owners)
    requires Good(u, owners) && ExpiresTo(v, t.steps[i], now, u)
    ensures TracksExpiry(t, now, i + 1, u, owners)
  {
    ExpiredIdsNext(t.steps, now, i);
    if Expired(t.steps[i], now) {
      AppendExactly(t, ExpiredIds(t.steps, now, i), StepLeaseExpired, v, t.steps[i].id, u, owners);
    }
  }

  lemma RelaxedStart(t: Task, now: Time, owners: bool)
    requires WF(t)
    ensures TracksExpiry(t, now, 0, Relaxed(t, now, 0), owners)
  {
    assert FreeFirst(t.steps, now, 0) == t.steps;
    PromoteFixpoint(t);
    assert StepEvents(ExpiredIds(t.steps, now, 0), StepLeaseExpired) == [];
  }

  /** Expiring step by step with a promotion after each is expiring all of them and promoting once. */
  lemma RelaxedNext(t: Task, now: Time, i: nat, owners: bool)
    requires Good(t, owners) && !TerminalTask(t) && i < |t.steps|
    ensures ExpiresTo(Relaxed(t, now, i), t.steps[i], now, Relaxed(t, now, i + 1))
  {
    RelaxedGood(t, now, i, owners);
    if Expired(t.steps[i], now) {
      RelaxedGood(t, now, i + 1, owners);
      ActiveNotPending(t, i);
      ExpireEvent(t, Relaxed(t, now, i), now, i);
    } else {
      FreeSame(t.steps, now, i);
    }
  }

  lemma ActiveNotPending(t: Task, i: nat)
    requires WF(t) && i < |t.steps| && (Live(t.steps[i]) || t.steps[i].status.Ready?)
    ensures !t.status.TaskPending?
  {
    assert AnyActive(t.steps);
  }

  lemma ExpireStep(t: Task, v: Task, now: Time, i: nat)
    requires i < |t.steps| && Expired(t.steps[i], now) && !t.status.TaskPending?
    requires v == Relaxed(t, now, i) && WF(v)
    requires CompletedIds(FreeFirst(t.steps, now, i)) == CompletedIds(FreeFirst(t.steps, now, i + 1))
    ensures i < |v.steps| && ReplayStep(v, i, StepLeaseExpired) == Relaxed(t, now, i + 1)
  {
    PromoteReadyLaws(FreeFirst(t.steps, now, i));
    FreeNext(t.steps, now, i);
    LocalChange(v, i, ApplyChange(v.steps[i], StepLeaseExpired));
  }

  lemma ExpireEvent(t: Task, v: Task, now: Time, i: nat)
    requires i < |t.steps| && Expired(t.steps[i], now) && !t.status.TaskPending?
    requires v == Relaxed(t, now, i) && WF(v) && SameShape(t.steps, v.steps)
    requires CompletedIds(FreeFirst(t.steps, now, i)) == CompletedIds(FreeFirst(t.steps, now, i + 1))
    ensures ReplayEvent(v, StepEvent(t.steps[i].id, StepLeaseExpired)) == Rebuilt(Relaxed(t, now, i + 1))
  {
    FindUnique(v.steps, i);
    ExpireStep(t, v, now, i);
  }

  lemma FreeSame(steps: seq<Step>, now: Time, i: nat)
    requires i < |steps| && !Expired(steps[i], now)
    ensures FreeFirst(steps, now, i + 1) == FreeFirst(steps, now, i)
  {
  }

  lemma FreeNext(steps: seq<Step>, now: Time, i: nat)
    requires i < |steps| && Expired(steps[i], now)
    requires CompletedIds(FreeFirst(steps, now, i)) == CompletedIds(FreeFirst(steps, now, i + 1))
    ensures var v := PromoteReady(FreeFirst(steps, now, i));
      v[i := PromoteStep(ApplyChange(v[i], StepLeaseExpired), CompletedIds(FreeFirst(steps, now, i)))]
      == PromoteReady(FreeFirst(steps, now, i + 1))
  {
  }

  lemma ReconcileFaithful(t: Task, now: Time, owners: bool)
    requires Good(t, owners)
    ensures Faithful(t, ReconcileLeases(t, now), owners)
  {
    var ids := ExpiredIds(t.steps, now, |t.steps|);
    if !TerminalTask(t) && ids != [] {
      ExpiryTracks(t, now, |t.steps|, owners);
      RelaxedGood(t, now, |t.steps|, owners);
      assert FreeFirst(t.steps, now, |t.steps|) == FreeExpired(t.steps, now);
      var before := t.(steps := FreeExpired(t.steps, now));
      var next := Promote(before);
      PromotionEventsStill(before, next);
      TracksStill(next, PromotionEvents(before, next), owners);
      TracksAppend(t, StepEvents(ids, StepLeaseExpired), next, PromotionEvents(before, next), next, owners);
    }
    FaithfulExactly(t, ReconcileLeases(t, now), owners);
  }
}
