/**
  Scheduling properties of the task engine: claims, leases, dependency order and progress.
 */
module TaskScheduling {
  import opened Wrappers
  import opened TaskModel
  import opened TaskOperations
  import opened TaskSafety
  import TaskEffects

  // ---------------------------------------------------------------- claims

  /**
    Setting a step running keeps claims unique if and only if the step was live already, has no owner,
    or its owner's run has no other live step.
   */
  lemma RunningKeepsClaimsIff(t: Task, id: StepId, lease: Time)
    requires UniqueClaims(t) && UpdateStep(t, id, Some(Running), lease).Accepted?
    ensures var s := t.steps[Find(t.steps, id)];
      UniqueClaims(UpdateStep(t, id, Some(Running), lease).task)
      <==> Live(s) || s.owner.None? || !HoldsLive(t.steps, s.owner.value.run)
  {
    var i := Find(t.steps, id);
    var next := UpdateStep(t, id, Some(Running), lease).task;
    StartedSteps(t, i, lease);
    var s := t.steps[i];
    if Live(s) || s.owner.None? || !HoldsLive(t.steps, s.owner.value.run) {
      StartedClaims(t, next, i);
    } else {
      StartedOwner(t, next, i);
    }
  }

  /** Starting a step makes that step live and leaves every other live step as it is. */
  ghost predicate Starts(t: Task, u: Task, i: nat) {
    && i < |t.steps| == |u.steps|
    && Live(u.steps[i]) && u.steps[i].owner == t.steps[i].owner
    && forall j :: 0 <= j < |t.steps| && j != i && (Live(t.steps[j]) || Live(u.steps[j])) ==> u.steps[j] == t.steps[j]
  }

  lemma StartedSteps(t: Task, i: nat, lease: Time)
    requires i < |t.steps|
    ensures Starts(t, Promote(t.(steps := t.steps[i := t.steps[i].(status := Running, lease := Some(lease))])), i)
  {
  }

  lemma StartedOwner(t: Task, u: Task, i: nat)
    requires Starts(t, u, i) && !Live(t.steps[i]) && t.steps[i].owner.Some?
    requires HoldsLive(t.steps, t.steps[i].owner.value.run)
    ensures !UniqueClaims(u)
  {
    var j :| 0 <= j < |t.steps| && Live(t.steps[j]) && OwnedBy(t.steps[j], t.steps[i].owner.value.run);
    assert u.steps[j] == t.steps[j] && j != i;
  }

  lemma StartedClaims(t: Task, u: Task, i: nat)
    requires Starts(t, u, i) && UniqueClaims(t)
    requires Live(t.steps[i]) || t.steps[i].owner.None? || !HoldsLive(t.steps, t.steps[i].owner.value.run)
    ensures UniqueClaims(u)
  {
    forall j | 0 <= j < |u.steps| && j != i && Live(u.steps[j]) && u.steps[j].owner.Some? && u.steps[i].owner.Some?
      ensures u.steps[j].owner.value.run != u.steps[i].owner.value.run
    {
      assert u.steps[j] == t.steps[j];
      assert !Live(t.steps[i]) ==> !OwnedBy(t.steps[j], t.steps[i].owner.value.run);
    }
  }

  /** Failing a lost worker's step stops at the first match; with unique claims that leaves the run with none. */
  lemma LostWorkerHoldsNothing(t: Task, run: nat)
    requires UniqueClaims(t) && !TerminalTask(t)
    ensures !HoldsLive(FailUnclosed(t, run).task.steps, run)
  {
    var i := FirstHeld(t.steps, run);
    var next := FailUnclosed(t, run).task;
    forall j | 0 <= j < |next.steps|
      ensures !(Live(next.steps[j]) && OwnedBy(next.steps[j], run))
    {
    }
  }

  /** A claim is accepted exactly for a ready step of a task that dispatches, by a run that holds nothing. */
  lemma ClaimAcceptedIff(t: Task, id: StepId, owner: Owner, lease: Time)
    requires WF(t)
    ensures ClaimStep(t, id, owner, lease).Accepted? <==>
      && !t.status.TaskBlocked? && !HoldsLive(t.steps, owner.run)
      && Has(t.steps, id) && t.steps[Find(t.steps, id)].status.Ready?
  {
    if Has(t.steps, id) && t.steps[Find(t.steps, id)].status.Ready? {
      assert !TerminalStep(t.steps[Find(t.steps, id)]);
    }
  }

  // ---------------------------------------------------------------- leases

  lemma {:induction false} NoneExpired(steps: seq<Step>, now: Time, n: nat)
    requires n <= |steps|
    ensures ExpiredIds(steps, now, n) == [] <==> forall i :: 0 <= i < n ==> !Expired(steps[i], now)
  {
    if n > 0 {
      NoneExpired(steps, now, n - 1);
    }
  }

  /**
    Lease reconciliation at time `now`: no live step keeps a lease at or before `now`; every other step
    that is live is untouched; a freed step is ownerless and ready or pending exactly by its
    dependencies; and doing it again at the same time logs nothing and changes nothing.
   */
  lemma ReconcileExact(t: Task, now: Time)
    requires WF(t) && !TerminalTask(t)
    ensures var u := ReconcileLeases(t, now).task;
      && WF(u) && SameShape(t.steps, u.steps) && u.status == t.status
      && (forall i :: 0 <= i < |t.steps| ==>
            if TaskEffects.Lapsed(t.steps[i], now)
            then Waiting(u.steps[i]) && u.steps[i].owner.None? && u.steps[i].lease.None?
                 && (u.steps[i].status.Ready? <==> DepsMet(t.steps[i], CompletedIds(t.steps)))
            else u.steps[i] == t.steps[i])
      && (forall i :: 0 <= i < |u.steps| ==> !TaskEffects.Lapsed(u.steps[i], now))
      && ReconcileLeases(u, now) == Accepted(u, [])
  {
    var n := |t.steps|;
    var u := ReconcileLeases(t, now).task;
    NoneExpired(t.steps, now, n);
    assert u == Relaxed(t, now, n) by {
      assert FreeFirst(t.steps, now, n) == FreeExpired(t.steps, now);
      if ExpiredIds(t.steps, now, n) == [] {
        assert FreeExpired(t.steps, now) == t.steps;
        PromoteFixpoint(t);
      }
    }
    RelaxedGood(t, now, n, false);
    RelaxedSteps(t, now);
    NoneExpired(u.steps, now, n);
  }

  lemma RelaxedSteps(t: Task, now: Time)
    requires WF(t) && !TerminalTask(t)
    requires CompletedIds(FreeFirst(t.steps, now, |t.steps|)) == CompletedIds(t.steps)
    ensures var u := Relaxed(t, now, |t.steps|);
      && |u.steps| == |t.steps| && u.status == t.status
      && (forall i :: 0 <= i < |t.steps| ==>
            if Expired(t.steps[i], now)
            then Waiting(u.steps[i]) && u.steps[i].owner.None? && u.steps[i].lease.None?
                 && (u.steps[i].status.Ready? <==> DepsMet(t.steps[i], CompletedIds(t.steps)))
            else u.steps[i] == t.steps[i])
  {
    var u := Relaxed(t, now, |t.steps|);
    if t.status.TaskPending? {
      assert forall i :: 0 <= i < |t.steps| ==> !Live(t.steps[i]) && !t.steps[i].status.Ready?;
      assert u.steps == t.steps;
    }
  }
}
