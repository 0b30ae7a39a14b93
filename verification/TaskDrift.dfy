/**
  Replay that has drifted from memory, after a batch whose reopenings did not survive.  What is rebuilt then differs
  from memory, but it has the same steps, and until the task ends it stays well formed, because no logged event leaves
  a lease on a step that is not live.
 */
module TaskDrift {
  import opened Wrappers
  import opened TaskModel
  import opened TaskReplay
  import opened TaskOperations
  import opened TaskSafety
  import opened TaskBatches
  import opened TaskReopens
  import opened TaskRuns

  // ---------------------------------------------------------------- leases along a list of events

  function Leased(steps: seq<Step>): set<StepId> {
    set i | 0 <= i < |steps| && steps[i].lease.Some? :: steps[i].id
  }

  /** The steps that may hold a lease after the event. */
  function LeaseNext(l: set<StepId>, e: Event): set<StepId> {
    if !e.StepEvent? then l
    else
      match e.change
      case StepClaimed(_, _) => l + {e.id}
      case StepStarted(_) => l + {e.id}
      case StepUpdated => l
      case StepReady => l
      case StepReopened => l
      case _ => l - {e.id}
  }

  /** Events that cannot leave a lease on a step that is not live: what is made ready or reopened holds none. */
  predicate Mild(l: set<StepId>, e: Event) {
    match e
    case StepEvent(id, c) => c.StepReady? || c.StepReopened? ==> id !in l
    case TaskStarted => true
    case TaskReopened => true
    case _ => false
  }

  function LeaseAfter(l: set<StepId>, events: seq<Event>): set<StepId> {
    if events == [] then l else LeaseNext(LeaseAfter(l, events[..|events| - 1]), events[|events| - 1])
  }

  predicate MildAll(l: set<StepId>, events: seq<Event>) {
    events == [] ||
    (var n := |events| - 1;
     MildAll(l, events[..n]) && Mild(LeaseAfter(l, events[..n]), events[n]))
  }

  /** The task has the given steps, is well formed and unfinished, and holds no leases but the listed ones. */
  ghost predicate Drifts(shape: seq<Step>, l: set<StepId>, v: Task) {
    WF(v) && !TerminalTask(v) && SameShape(shape, v.steps) && Leased(v.steps) <= l
  }

  lemma LeasedAt(steps: seq<Step>, i: nat)
    requires i < |steps|
    ensures steps[i].lease.Some? ==> steps[i].id in Leased(steps)
    ensures UniqueIds(steps) && steps[i].lease.None? ==> steps[i].id !in Leased(steps)
  {
  }

  /** What a changed step adds to or takes from the leases. */
  lemma LeasedChange(steps: seq<Step>, i: nat, s: Step, l: set<StepId>)
    requires i < |steps| && s.id == steps[i].id && UniqueIds(steps) && Leased(steps) <= l
    ensures Leased(steps[i := s]) <= l + {s.id}
    ensures s.lease.None? ==> Leased(steps[i := s]) <= l - {s.id}
    ensures s.lease.Some? && steps[i].lease.Some? ==> Leased(steps[i := s]) <= l
  {
    var u := steps[i := s];
    forall x | x in Leased(u)
      ensures x in l + {s.id} && (s.lease.None? ==> x in l && x != s.id)
      ensures s.lease.Some? && steps[i].lease.Some? ==> x in l
    {
      var j :| 0 <= j < |u| && u[j].lease.Some? && u[j].id == x;
      LeasedAt(steps, j);
      LeasedAt(steps, i);
    }
  }

  lemma PromoteLeased(t: Task)
    ensures Leased(Promote(t).steps) == Leased(t.steps)
  {
    var u := Promote(t);
    assert forall i :: 0 <= i < |t.steps| ==> u.steps[i].lease == t.steps[i].lease && u.steps[i].id == t.steps[i].id;
    forall x
      ensures x in Leased(u.steps) <==> x in Leased(t.steps)
    {
      if x in Leased(t.steps) {
        var i :| 0 <= i < |t.steps| && t.steps[i].lease.Some? && t.steps[i].id == x;
        assert u.steps[i].lease.Some?;
      }
      if x in Leased(u.steps) {
        var i :| 0 <= i < |t.steps| && u.steps[i].lease.Some? && u.steps[i].id == x;
        assert t.steps[i].lease.Some?;
      }
    }
  }

  /** A changed step carries a lease only when live, if it carried none where it is made ready or reopened. */
  lemma ChangedLease(s: Step, c: Change)
    requires (s.lease.Some? ==> Live(s)) && (c.StepReady? || c.StepReopened? ==> s.lease.None?)
    ensures ApplyChange(s, c).lease.Some? ==> Live(ApplyChange(s, c))
  {
  }

  lemma StepDrifts(shape: seq<Step>, l: set<StepId>, v: Task, id: StepId, c: Change)
    requires Drifts(shape, l, v) && Mild(l, StepEvent(id, c)) && Has(v.steps, id)
    ensures Drifts(shape, LeaseNext(l, StepEvent(id, c)), ReplayStep(v, Find(v.steps, id), c))
  {
    var i := Find(v.steps, id);
    var s := ApplyChange(v.steps[i], c);
    LeasedAt(v.steps, i);
    ChangedLease(v.steps[i], c);
    ChangeKeepsWF(v, i, s);
    LeasedChange(v.steps, i, s, l);
    PromoteLeased(v.(steps := v.steps[i := s]));
  }

  lemma MildOne(shape: seq<Step>, l: set<StepId>, v: Task, e: Event)
    requires Drifts(shape, l, v) && Mild(l, e) && ReplayEvent(v, e).Rebuilt?
    ensures Drifts(shape, LeaseNext(l, e), ReplayEvent(v, e).task)
  {
    match e
    case StepEvent(id, c) => StepDrifts(shape, l, v, id, c);
    case TaskReopened =>
      PromoteWF(v.(status := TaskPending));
      PromoteLeased(v.(status := TaskPending));
    case TaskStarted =>
  }

  /** Replay that met no missing step still drifts. */
  ghost predicate Wanders(shape: seq<Step>, l: set<StepId>, x: Replayed) {
    x.Broken? || (x.Rebuilt? && Drifts(shape, l, x.task))
  }

  lemma {:induction false} MildFrom(shape: seq<Step>, l: set<StepId>, v: Task, events: seq<Event>)
    requires Drifts(shape, l, v) && MildAll(l, events)
    ensures Wanders(shape, LeaseAfter(l, events), ReplayFrom(Rebuilt(v), events))
    decreases |events|
  {
    if events != [] {
      var n := |events| - 1;
      var before := ReplayFrom(Rebuilt(v), events[..n]);
      MildFrom(shape, l, v, events[..n]);
      if before.Rebuilt? && ReplayEvent(before.task, events[n]).Rebuilt? {
        MildOne(shape, LeaseAfter(l, events[..n]), before.task, events[n]);
      }
    }
  }

  lemma {:induction false} MildPrefix(l: set<StepId>, events: seq<Event>, k: nat)
    requires MildAll(l, events) && k <= |events|
    ensures MildAll(l, events[..k])
    decreases |events|
  {
    if k < |events| {
      MildPrefix(l, events[..|events| - 1], k);
      assert events[..|events| - 1][..k] == events[..k];
    } else {
      assert events[..k] == events;
    }
  }

  /** Wherever replay stops inside the events, what it has rebuilt is well formed. */
  ghost predicate SafeAlong(x: Replayed, events: seq<Event>) {
    forall k :: 0 <= k <= |events| && ReplayFrom(x, events[..k]).Rebuilt? ==> WF(ReplayFrom(x, events[..k]).task)
  }

  lemma MildAlong(shape: seq<Step>, l: set<StepId>, v: Task, events: seq<Event>)
    requires Drifts(shape, l, v) && MildAll(l, events)
    ensures SafeAlong(Rebuilt(v), events)
  {
    forall k | 0 <= k <= |events| && ReplayFrom(Rebuilt(v), events[..k]).Rebuilt?
      ensures WF(ReplayFrom(Rebuilt(v), events[..k]).task)
    {
      MildPrefix(l, events, k);
      MildFrom(shape, l, v, events[..k]);
    }
  }

  /** The events name only steps that are there. */
  predicate Known(steps: seq<Step>, events: seq<Event>) {
    forall e :: e in events && e.StepEvent? ==> Has(steps, e.id)
  }

  lemma {:induction false} MildFound(shape: seq<Step>, l: set<StepId>, v: Task, events: seq<Event>)
    requires Drifts(shape, l, v) && MildAll(l, events) && Known(shape, events)
    ensures ReplayFrom(Rebuilt(v), events).Rebuilt?
    decreases |events|
  {
    if events != [] {
      var n := |events| - 1;
      assert Known(shape, events[..n]) by {
        assert forall e :: e in events[..n] ==> e in events;
      }
      MildFound(shape, l, v, events[..n]);
      MildFrom(shape, l, v, events[..n]);
      assert events[n] in events;
      if events[n].StepEvent? {
        SameShapeFind(shape, ReplayFrom(Rebuilt(v), events[..n]).task.steps, events[n].id);
      }
    }
  }

  lemma {:induction false} MildAppend(l: set<StepId>, first: seq<Event>, rest: seq<Event>)
    requires MildAll(l, first) && MildAll(LeaseAfter(l, first), rest)
    ensures MildAll(l, first + rest) && LeaseAfter(l, first + rest) == LeaseAfter(LeaseAfter(l, first), rest)
    decreases |rest|
  {
    if rest == [] {
      assert first + rest == first;
    } else {
      var n := |rest| - 1;
      MildAppend(l, first, rest[..n]);
      assert (first + rest)[..|first| + n] == first + rest[..n];
    }
  }

  lemma MildSingle(l: set<StepId>, e: Event)
    requires Mild(l, e)
    ensures MildAll(l, [e]) && LeaseAfter(l, [e]) == LeaseNext(l, e)
  {
    var events := [e];
    var n := |events| - 1;
    assert events[..n] == [] && events[n] == e;
    assert MildAll(l, events[..n]) && LeaseAfter(l, events[..n]) == l;
  }

  /** Events after which exactly the same steps may hold leases. */
  predicate Still(l: set<StepId>, e: Event) {
    Mild(l, e) && LeaseNext(l, e) == l
  }

  lemma {:induction false} StillMild(l: set<StepId>, events: seq<Event>)
    requires forall e :: e in events ==> Still(l, e)
    ensures MildAll(l, events) && LeaseAfter(l, events) == l
    decreases |events|
  {
    if events != [] {
      var n := |events| - 1;
      assert forall e :: e in events[..n] ==> e in events;
      StillMild(l, events[..n]);
      assert events[n] in events;
    }
  }

  // ---------------------------------------------------------------- the calls

  /** From the leases of the task, the events of a call lead to no other leases than those of the task it leaves. */
  ghost predicate Carried(t: Task, o: Outcome)
    requires o.Accepted?
  {
    && MildAll(Leased(t.steps), o.events)
    && LeaseAfter(Leased(t.steps), o.events) <= Leased(o.task.steps)
    && SameShape(t.steps, o.task.steps) && Known(t.steps, o.events)
  }

  lemma LeasedKept(steps: seq<Step>, i: nat, s: Step)
    requires i < |steps| && s.id == steps[i].id
    ensures s.lease.Some? ==> Leased(steps) + {s.id} <= Leased(steps[i := s])
    ensures s.lease.None? ==> Leased(steps) - {s.id} <= Leased(steps[i := s])
    ensures s.lease == steps[i].lease ==> Leased(steps) <= Leased(steps[i := s])
  {
    var u := steps[i := s];
    LeasedAt(u, i);
    forall x | x in Leased(steps) && (x != s.id || s.lease == steps[i].lease)
      ensures x in Leased(u)
    {
      var j :| 0 <= j < |steps| && steps[j].lease.Some? && steps[j].id == x;
      LeasedAt(u, j);
    }
  }

  lemma {:induction false} ReadyEventsStill(before: seq<Step>, after: seq<Step>, n: nat, l: set<StepId>)
    requires n <= |before| == |after| && UniqueIds(after) && LeasesOnLive(after) && l <= Leased(after)
    ensures forall e :: e in ReadyEvents(before, after, n) ==> Still(l, e) && e.StepEvent? && Has(after, e.id)
  {
    if n > 0 {
      ReadyEventsStill(before, after, n - 1, l);
      LeasedAt(after, n - 1);
      FindUnique(after, n - 1);
    }
  }

  lemma PromotionStill(before: Task, next: Task, l: set<StepId>)
    requires |before.steps| == |next.steps| && WF(next) && l <= Leased(next.steps)
    ensures MildAll(l, PromotionEvents(before, next)) && LeaseAfter(l, PromotionEvents(before, next)) == l
    ensures Known(next.steps, PromotionEvents(before, next))
  {
    ReadyEventsStill(before.steps, next.steps, |next.steps|, l);
    StillMild(l, PromotionEvents(before, next));
  }

  /** Events of a change, then those of the promotion after it. */
  lemma CarriedPromoted(t: Task, first: seq<Event>, before: Task, next: Task)
    requires MildAll(Leased(t.steps), first) && LeaseAfter(Leased(t.steps), first) <= Leased(next.steps)
    requires |before.steps| == |next.steps| && WF(next) && SameShape(t.steps, next.steps) && Known(t.steps, first)
    ensures Carried(t, Accepted(next, first + PromotionEvents(before, next)))
  {
    var l := LeaseAfter(Leased(t.steps), first);
    PromotionStill(before, next, l);
    MildAppend(Leased(t.steps), first, PromotionEvents(before, next));
    KnownShape(t.steps, next.steps, PromotionEvents(before, next));
  }

  lemma KnownShape(a: seq<Step>, b: seq<Step>, events: seq<Event>)
    requires SameShape(a, b) && Known(b, events)
    ensures Known(a, events)
  {
    forall e | e in events && e.StepEvent?
      ensures Has(a, e.id)
    {
      SameShapeFind(a, b, e.id);
    }
  }

  lemma ClaimCarried(t: Task, id: StepId, owner: Owner, lease: Time)
    requires WF(t) && ClaimStep(t, id, owner, lease).Accepted?
    ensures Carried(t, ClaimStep(t, id, owner, lease))
  {
    var i := Find(t.steps, id);
    var s := ClaimStep(t, id, owner, lease).task.steps[i];
    MildSingle(Leased(t.steps), StepEvent(id, StepClaimed(owner, lease)));
    LeasedKept(t.steps, i, s);
  }

  lemma ReportCarried(t: Task, id: StepId, request: Option<StepStatus>, lease: Time)
    requires WF(t) && UpdateStep(t, id, request, lease).Accepted?
    ensures Carried(t, UpdateStep(t, id, request, lease))
  {
    var i := Find(t.steps, id);
    var (s, change) := Requested(t.steps[i], request, lease).value;
    var before := t.(steps := t.steps[i := s]);
    UpdateStepWF(t, id, request, lease);
    RequestedLease(t.steps, i, request, lease);
    MildSingle(Leased(t.steps), StepEvent(id, change));
    PromoteLeased(before);
    CarriedPromoted(t, [StepEvent(id, change)], before, Promote(before));
  }

  lemma RequestedLease(steps: seq<Step>, i: nat, request: Option<StepStatus>, lease: Time)
    requires i < |steps| && Requested(steps[i], request, lease).Some?
    ensures var (s, change) := Requested(steps[i], request, lease).value;
      var e := StepEvent(steps[i].id, change);
      Mild(Leased(steps), e) && LeaseNext(Leased(steps), e) <= Leased(steps[i := s])
  {
    LeasedKept(steps, i, Requested(steps[i], request, lease).value.0);
  }

  predicate Drops(c: Change) { c.StepFailed? || c.StepCancelled? || c.StepLeaseExpired? }

  lemma {:induction false} DropsMild(l: set<StepId>, ids: seq<StepId>, c: Change)
    requires Drops(c)
    ensures MildAll(l, StepEvents(ids, c)) && LeaseAfter(l, StepEvents(ids, c)) <= l
    ensures forall id :: id in ids ==> id !in LeaseAfter(l, StepEvents(ids, c))
    decreases |ids|
  {
    if ids != [] {
      var n := |ids| - 1;
      DropsMild(l, ids[..n], c);
      StepEventsLast(ids, c);
      assert ids == ids[..n] + [ids[n]];
    }
  }

  lemma StepEventsLast(ids: seq<StepId>, c: Change)
    requires ids != []
    ensures var n := |ids| - 1;
      StepEvents(ids, c)[..n] == StepEvents(ids[..n], c) && StepEvents(ids, c)[n] == StepEvent(ids[n], c)
  {
  }

  lemma FreedLeases(steps: seq<Step>, now: Time, l: set<StepId>)
    requires UniqueIds(steps) && l <= Leased(steps)
    requires forall id :: id in ExpiredIds(steps, now, |steps|) ==> id !in l
    ensures l <= Leased(FreeExpired(steps, now))
  {
    forall x | x in l
      ensures x in Leased(FreeExpired(steps, now))
    {
      var i :| 0 <= i < |steps| && steps[i].lease.Some? && steps[i].id == x;
      ExpiredIdsOf(steps, now, |steps|, i);
      LeasedAt(FreeExpired(steps, now), i);
    }
  }

  lemma {:induction false} ExpiredKnown(steps: seq<Step>, now: Time, n: nat)
    requires UniqueIds(steps) && n <= |steps|
    ensures forall id :: id in ExpiredIds(steps, now, n) ==> Has(steps, id)
  {
    if n > 0 {
      ExpiredKnown(steps, now, n - 1);
      FindUnique(steps, n - 1);
    }
  }

  lemma ReconcileCarried(t: Task, now: Time)
    requires WF(t) && ReconcileLeases(t, now).events != []
    ensures Carried(t, ReconcileLeases(t, now))
  {
    var ids := ExpiredIds(t.steps, now, |t.steps|);
    var before := t.(steps := FreeExpired(t.steps, now));
    ReconcileFaithful(t, now, false);
    DropsMild(Leased(t.steps), ids, StepLeaseExpired);
    FreedLeases(t.steps, now, LeaseAfter(Leased(t.steps), StepEvents(ids, StepLeaseExpired)));
    PromoteLeased(before);
    ExpiredKnown(t.steps, now, |t.steps|);
    FreedShape(t, now);
    CarriedPromoted(t, StepEvents(ids, StepLeaseExpired), before, Promote(before));
  }

  lemma FreedShape(t: Task, now: Time)
    ensures SameShape(t.steps, Promote(t.(steps := FreeExpired(t.steps, now))).steps)
  {
    PromoteReadyLaws(FreeExpired(t.steps, now));
  }

  lemma LoseWorkerCarried(t: Task, run: nat)
    requires WF(t) && FailUnclosed(t, run).events != []
    ensures Carried(t, FailUnclosed(t, run))
  {
    var i := FirstHeld(t.steps, run);
    FindUnique(t.steps, i);
    MildSingle(Leased(t.steps), StepEvent(t.steps[i].id, StepFailed));
    LeasedKept(t.steps, i, FailUnclosed(t, run).task.steps[i]);
  }

  predicate Ends(c: Call) { c.Complete? || c.Terminate? }

  lemma PerformCarried(t: Task, c: Call)
    requires WF(t) && !c.Update? && !Ends(c) && Perform(t, c).Accepted? && Perform(t, c).events != []
    ensures Carried(t, Perform(t, c))
  {
    match c
    case Claim(id, owner, lease) => ClaimCarried(t, id, owner, lease);
    case Report(id, request, lease) => ReportCarried(t, id, request, lease);
    case Reconcile(now) => ReconcileCarried(t, now);
    case LoseWorker(run) => LoseWorkerCarried(t, run);
  }

  /** Memory and what is rebuilt, while they differ: the same steps, well formed, no leases memory does not have. */
  ghost predicate Drift(t: Task, v: Task) { Drifts(t.steps, Leased(t.steps), v) }

  /** A drifting replay goes on drifting through the events of a call. */
  lemma DriftGoesOn(t: Task, v: Task, o: Outcome)
    requires o.Accepted? && Carried(t, o) && Drift(t, v)
    ensures ReplayFrom(Rebuilt(v), o.events).Rebuilt? && Drift(o.task, ReplayFrom(Rebuilt(v), o.events).task)
    ensures SafeAlong(Rebuilt(v), o.events)
  {
    var l := Leased(t.steps);
    MildFrom(t.steps, l, v, o.events);
    MildFound(t.steps, l, v, o.events);
    MildAlong(t.steps, l, v, o.events);
    DriftsShape(t.steps, o.task.steps, LeaseAfter(l, o.events), Leased(o.task.steps),
                ReplayFrom(Rebuilt(v), o.events).task);
  }

  lemma DriftsShape(a: seq<Step>, b: seq<Step>, l: set<StepId>, m: set<StepId>, v: Task)
    requires Drifts(a, l, v) && SameShape(a, b) && l <= m
    ensures Drifts(b, m, v)
  {
  }

  lemma DriftDrops(t: Task, v: Task, ids: seq<StepId>, c: Change)
    requires Drift(t, v) && Drops(c) && forall id :: id in ids ==> Has(t.steps, id)
    ensures SafeAlong(Rebuilt(v), StepEvents(ids, c))
    ensures var x := ReplayFrom(Rebuilt(v), StepEvents(ids, c));
      x.Rebuilt? && SameShape(t.steps, x.task.steps)
  {
    var l := Leased(t.steps);
    DropsMild(l, ids, c);
    MildFrom(t.steps, l, v, StepEvents(ids, c));
    MildFound(t.steps, l, v, StepEvents(ids, c));
    MildAlong(t.steps, l, v, StepEvents(ids, c));
  }

  lemma FinishFound(steps: seq<Step>, u: Task, ids: seq<StepId>, status: TaskStatus)
    requires SameShape(steps, u.steps) && forall id :: id in ids ==> Has(steps, id)
    ensures var x := ReplayEvent(u, TaskFinished(status, ids));
      x.Rebuilt? && x.task.status == status
  {
    forall id | id in ids
      ensures Has(u.steps, id)
    {
      SameShapeFind(steps, u.steps, id);
    }
    SettleFound(u.steps, SettledStatus(status), ids);
  }

  /** Through the events that end a task it drifts up to the last one, and that one meets every step it names. */
  lemma DriftEnds(t: Task, v: Task, ids: seq<StepId>, c: Change, status: TaskStatus)
    requires Drift(t, v) && Drops(c) && forall id :: id in ids ==> Has(t.steps, id)
    ensures SafeAlong(Rebuilt(v), StepEvents(ids, c))
    ensures var x := ReplayFrom(Rebuilt(v), StepEvents(ids, c) + [TaskFinished(status, ids)]);
      x.Rebuilt? && x.task.status == status
  {
    DriftDrops(t, v, ids, c);
    var u := ReplayFrom(Rebuilt(v), StepEvents(ids, c)).task;
    FinishFound(t.steps, u, ids, status);
    ReplayFromAppend(Rebuilt(v), StepEvents(ids, c), [TaskFinished(status, ids)]);
    ReplayFromOne(Rebuilt(u), TaskFinished(status, ids));
  }

  lemma {:induction false} SettleFound(steps: seq<Step>, status: StepStatus, ids: seq<StepId>)
    requires forall id :: id in ids ==> Has(steps, id)
    ensures var r := SettleListed(steps, status, ids);
      r.Some? && SameShape(steps, r.value)
    decreases |ids|
  {
    if ids != [] {
      var n := |ids| - 1;
      assert ids[n] in ids && forall id :: id in ids[..n] ==> id in ids;
      SettleFound(steps, status, ids[..n]);
      SameShapeFind(steps, SettleListed(steps, status, ids[..n]).value, ids[n]);
    }
  }

  // ---------------------------------------------------------------- batches

  lemma SubsetLeased(a: seq<Step>, b: seq<Step>)
    requires forall s :: s in a && s.lease.Some? ==> s in b
    ensures Leased(a) <= Leased(b)
  {
    forall x | x in Leased(a)
      ensures x in Leased(b)
    {
      var i :| 0 <= i < |a| && a[i].lease.Some? && a[i].id == x;
      assert a[i] in a;
      var j :| 0 <= j < |b| && b[j] == a[i];
      LeasedAt(b, j);
    }
  }

  /** No operation of a batch gives a step a lease. */
  lemma OperationLeases(t: Task, op: Operation)
    requires ApplyOperation(t, op).Some?
    ensures Leased(ApplyOperation(t, op).value.steps) <= Leased(t.steps)
  {
    match op
    case EditTask(_) =>
    case UnknownOperation =>
    case AddStep(raw) => SubsetLeased(t.steps + [StepFromInput(raw)], t.steps);
    case DeleteStep(id) => SubsetLeased(WithoutStep(t.steps, id), t.steps);
    case _ => EditLeases(t, op);
  }

  lemma EditLeases(t: Task, op: Operation)
    requires !op.EditTask? && !op.UnknownOperation? && !op.AddStep? && !op.DeleteStep?
    requires ApplyOperation(t, op).Some?
    ensures Leased(ApplyOperation(t, op).value.steps) <= Leased(t.steps)
  {
    var i := Find(t.steps, op.id);
    var u := ApplyOperation(t, op).value;
    OneStepEdited(t, op, i, u);
    forall x | x in Leased(u.steps)
      ensures x in Leased(t.steps)
    {
      var j :| 0 <= j < |u.steps| && u.steps[j].lease.Some? && u.steps[j].id == x;
      LeasedAt(t.steps, j);
    }
  }

  lemma {:induction false} BatchLeases(t: Task, ops: seq<Operation>)
    requires ApplyBatch(t, ops).Some?
    ensures Leased(ApplyBatch(t, ops).value.task.steps) <= Leased(t.steps)
  {
    if ops != [] {
      BatchLeases(t, ops[..|ops| - 1]);
      OperationLeases(ApplyBatch(t, ops[..|ops| - 1]).value.task, ops[|ops| - 1]);
    }
  }

  /** The steps a batch reopened held no lease before it, and hold none after it. */
  lemma ReopenedUnleased(t: Task, ops: seq<Operation>)
    requires WF(t) && UpdateTask(t, ops).Accepted?
    ensures forall id :: id in ApplyBatch(t, ops).value.reopened ==> id !in Leased(UpdateTask(t, ops).task.steps)
  {
    BatchLeases(t, ops);
    PromoteLeased(ApplyBatch(t, ops).value.task);
    forall id | id in ApplyBatch(t, ops).value.reopened
      ensures id !in Leased(t.steps)
    {
      RecordedIff(t, ops, id);
      LeasedAt(t.steps, Find(t.steps, id));
    }
  }

  lemma ReopenEventsStill(ids: seq<StepId>, l: set<StepId>)
    requires forall id :: id in ids ==> id !in l
    ensures forall e :: e in ReopenEvents(ids) ==> Still(l, e)
  {
    forall e | e in ReopenEvents(ids)
      ensures Still(l, e)
    {
      var i :| 0 <= i < |ids| && e == StepEvent(ids[i], StepReopened);
      assert ids[i] in ids;
    }
  }

  /** So what a batch logs after its snapshot moves no lease. */
  lemma BatchStill(t: Task, ops: seq<Operation>)
    requires WF(t) && UpdateTask(t, ops).Accepted?
    ensures var o := UpdateTask(t, ops);
      WF(o.task) && forall e :: e in AfterSnapshot(ApplyBatch(t, ops).value) ==> Still(Leased(o.task.steps), e)
  {
    var b := ApplyBatch(t, ops).value;
    UpdateGood(t, ops, false);
    ReopenedUnleased(t, ops);
    SnapshotStill(b, Leased(Finished(b).steps));
  }

  lemma SnapshotStill(b: Batch, l: set<StepId>)
    requires WF(Finished(b)) && l == Leased(Finished(b).steps) && forall id :: id in b.reopened ==> id !in l
    ensures forall e :: e in AfterSnapshot(b) ==> Still(l, e)
  {
    ReopenEventsStill(b.reopened, l);
    ReadyEventsStill(b.task.steps, Finished(b).steps, |Finished(b).steps|, l);
  }

  /** Unfinished and well formed, a task is its own drift. */
  lemma OwnDrift(t: Task)
    requires WF(t) && !TerminalTask(t)
    ensures Drift(t, t)
  {
  }

  lemma UpdatedUnfinished(t: Task, ops: seq<Operation>)
    requires WF(t) && UpdateTask(t, ops).Accepted?
    ensures !TerminalTask(UpdateTask(t, ops).task)
  {
    BatchEditable(t, ops);
  }

  lemma SnapshotPrefix(b: Batch, x: Replayed, k: nat)
    requires x.Rebuilt? && 0 < k <= |BatchEvents(b)|
    ensures k - 1 <= |AfterSnapshot(b)|
    ensures ReplayFrom(x, BatchEvents(b)[..k]) == ReplayFrom(Rebuilt(Finished(b)), AfterSnapshot(b)[..k - 1])
  {
    BatchEventsSplit(b);
    assert BatchEvents(b)[..k] == [TaskUpdated(Finished(b))] + AfterSnapshot(b)[..k - 1];
    ReplayFromAppend(x, [TaskUpdated(Finished(b))], AfterSnapshot(b)[..k - 1]);
    ReplayFromOne(x, TaskUpdated(Finished(b)));
  }

  /** Wherever replay of a batch stops, it meets a missing step or rebuilds a well-formed task; at the end it drifts. */
  lemma BatchAlong(t: Task, ops: seq<Operation>, x: Replayed)
    requires WF(t) && UpdateTask(t, ops).Accepted? && x.Rebuilt?
    ensures var o := UpdateTask(t, ops);
      && (forall k :: 0 < k <= |o.events| && ReplayFrom(x, o.events[..k]).Rebuilt? ==>
            WF(ReplayFrom(x, o.events[..k]).task))
      && Wanders(o.task.steps, Leased(o.task.steps), ReplayFrom(x, o.events))
  {
    var b, o := ApplyBatch(t, ops).value, UpdateTask(t, ops);
    var l := Leased(o.task.steps);
    BatchStill(t, ops);
    UpdatedUnfinished(t, ops);
    OwnDrift(o.task);
    StillMild(l, AfterSnapshot(b));
    MildFrom(o.task.steps, l, o.task, AfterSnapshot(b));
    MildAlong(o.task.steps, l, o.task, AfterSnapshot(b));
    SnapshotReplays(b, x);
    forall k | 0 < k <= |o.events| && ReplayFrom(x, o.events[..k]).Rebuilt?
      ensures WF(ReplayFrom(x, o.events[..k]).task)
    {
      SnapshotPrefix(b, x, k);
    }
  }

  lemma BrokenBefore(x: Replayed, events: seq<Event>, k: nat)
    requires k <= |events| && !ReplayFrom(x, events).Broken?
    ensures !ReplayFrom(x, events[..k]).Broken?
  {
    assert events == events[..k] + events[k..];
    ReplayFromAppend(x, events[..k], events[k..]);
    BrokenStays(events[k..]);
  }

  /**
    Crash consistency of one batch: every non-empty prefix of its events rebuilds a well-formed task if and only if the
    batch does not end without a step it reopened.
   */
  lemma BatchCrashSafeIff(t: Task, ops: seq<Operation>, x: Replayed)
    requires WF(t) && UpdateTask(t, ops).Accepted? && x.Rebuilt?
    ensures var events := UpdateTask(t, ops).events;
      (forall k :: 0 < k <= |events| ==> ReplayFrom(x, events[..k]).Rebuilt? && WF(ReplayFrom(x, events[..k]).task))
      <==> !BreaksLog(t, ops)
  {
    var events := UpdateTask(t, ops).events;
    BatchBreaksLogIff(t, ops, x);
    BatchAlong(t, ops, x);
    assert events[..|events|] == events;
    if !BreaksLog(t, ops) {
      forall k | 0 < k <= |events|
        ensures ReplayFrom(x, events[..k]).Rebuilt?
      {
        BrokenBefore(x, events, k);
        NeverNone(x.task, events[..k]);
      }
    }
  }
}
