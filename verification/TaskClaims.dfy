/**
  Unique claims over whole runs, restarts and crashes included, from the owner discipline alone.

  Batches whose reopenings do not survive make replay diverge from memory, and a task rebuilt from such a log need
  not be well formed.  But replay never makes a step live that memory does not have live, and the owners of the steps
  that memory has live are the same in both.
 */
module TaskClaims {
  import opened Wrappers
  import opened TaskModel
  import opened TaskReplay
  import opened TaskOperations
  import opened TaskSafety
  import opened TaskBatches
  import opened TaskRuns
  import opened TaskScheduling

  ghost predicate Held(t: Task) {
    UniqueIds(t.steps) && UniqueClaims(t)
  }

  /** Step b is live only if a is, and then has the same owner. */
  predicate StepUnder(a: Step, b: Step) {
    a.id == b.id && (Live(b) ==> Live(a) && b.owner == a.owner)
  }

  ghost predicate Under(t: Task, b: Task) {
    |t.steps| == |b.steps| && forall i :: 0 <= i < |t.steps| ==> StepUnder(t.steps[i], b.steps[i])
  }

  /** Moreover b has the owner of every live step of t. */
  ghost predicate Shadows(t: Task, b: Task) {
    Under(t, b) && forall i :: 0 <= i < |t.steps| && Live(t.steps[i]) ==> b.steps[i].owner == t.steps[i].owner
  }

  lemma UnderHeld(t: Task, b: Task)
    requires Under(t, b) && Held(t)
    ensures Held(b)
  {
    assert forall i :: 0 <= i < |b.steps| ==> StepUnder(t.steps[i], b.steps[i]);
  }

  lemma UnderFind(t: Task, b: Task, id: StepId)
    requires Under(t, b)
    ensures Find(t.steps, id) == Find(b.steps, id)
  {
    assert forall i :: 0 <= i < |b.steps| ==> StepUnder(t.steps[i], b.steps[i]);
    assert Find(t.steps, id) < |b.steps| ==> b.steps[Find(t.steps, id)].id == t.steps[Find(t.steps, id)].id;
  }

  lemma UnderTransitive(a: Task, b: Task, c: Task)
    requires Under(a, b) && Under(b, c)
    ensures Under(a, c)
  {
    forall i | 0 <= i < |a.steps|
      ensures StepUnder(a.steps[i], c.steps[i])
    {
      assert StepUnder(a.steps[i], b.steps[i]) && StepUnder(b.steps[i], c.steps[i]);
    }
  }

  lemma PromoteUnder(t: Task)
    ensures Under(t, Promote(t)) && Under(Promote(t), t)
    ensures |Promote(t).steps| == |t.steps|
    ensures forall i :: 0 <= i < |t.steps| ==> Promote(t).steps[i].owner == t.steps[i].owner
  {
  }

  // ---------------------------------------------------------------- one event

  /** Events that make nothing live. */
  predicate Calm(e: Event) {
    match e
    case StepEvent(_, c) => !c.StepClaimed? && !c.StepStarted?
    case TaskCreated(_) => false
    case TaskUpdated(_) => false
    case _ => true
  }

  /** Calm events that clear no owner. */
  predicate Plain(e: Event) {
    Calm(e) && !e.TaskFinished? && (e.StepEvent? ==> !e.change.StepBlocked? && !e.change.StepLeaseExpired?)
  }

  lemma {:induction false} SettleUnder(t: Task, status: StepStatus, ids: seq<StepId>)
    requires status.Failed? || status.Cancelled?
    ensures var r := SettleListed(t.steps, status, ids);
      r.Some? ==> Under(t, t.(steps := r.value))
    decreases |ids|
  {
    if ids != [] {
      SettleUnder(t, status, ids[..|ids| - 1]);
      var r := SettleListed(t.steps, status, ids[..|ids| - 1]);
      if r.Some? {
        assert forall i :: 0 <= i < |t.steps| ==> StepUnder(t.steps[i], r.value[i]);
      }
    }
  }

  lemma ChangeUnder(t: Task, i: nat, s: Step)
    requires i < |t.steps| && StepUnder(t.steps[i], s)
    ensures Under(t, Promote(t.(steps := t.steps[i := s])))
  {
    var u := t.(steps := t.steps[i := s]);
    assert Under(t, u);
    PromoteUnder(u);
    UnderTransitive(t, u, Promote(u));
  }

  lemma CalmUnder(b: Task, e: Event)
    requires Calm(e) && ReplayEvent(b, e).Rebuilt?
    ensures Under(b, ReplayEvent(b, e).task)
  {
    match e
    case StepEvent(id, change) =>
      var i := Find(b.steps, id);
      ChangeUnder(b, i, ApplyChange(b.steps[i], change));
    case TaskReopened => PromoteUnder(b.(status := TaskPending));
    case TaskFinished(status, settled) => SettleUnder(b, SettledStatus(status), settled);
    case _ =>
  }

  lemma PlainShadows(t: Task, b: Task, e: Event)
    requires Shadows(t, b) && Plain(e) && ReplayEvent(b, e).Rebuilt?
    ensures Shadows(t, ReplayEvent(b, e).task)
  {
    var u := ReplayEvent(b, e).task;
    CalmUnder(b, e);
    UnderTransitive(t, b, u);
    assert forall i :: 0 <= i < |b.steps| ==> u.steps[i].owner == b.steps[i].owner;
  }

  // ---------------------------------------------------------------- lists of events

  lemma {:induction false} CalmFrom(b: Task, events: seq<Event>)
    requires forall e :: e in events ==> Calm(e)
    ensures ReplayFrom(Rebuilt(b), events).Rebuilt? ==> Under(b, ReplayFrom(Rebuilt(b), events).task)
    decreases |events|
  {
    if events != [] {
      var n := |events| - 1;
      var before := ReplayFrom(Rebuilt(b), events[..n]);
      CalmFrom(b, events[..n]);
      assert events[n] in events;
      if ReplayFrom(Rebuilt(b), events).Rebuilt? && before.Rebuilt? {
        CalmUnder(before.task, events[n]);
        UnderTransitive(b, before.task, ReplayEvent(before.task, events[n]).task);
      }
    }
  }

  lemma {:induction false} PlainFrom(t: Task, b: Task, events: seq<Event>)
    requires Shadows(t, b) && forall e :: e in events ==> Plain(e)
    ensures ReplayFrom(Rebuilt(b), events).Rebuilt? ==> Shadows(t, ReplayFrom(Rebuilt(b), events).task)
    decreases |events|
  {
    if events != [] {
      var n := |events| - 1;
      var before := ReplayFrom(Rebuilt(b), events[..n]);
      PlainFrom(t, b, events[..n]);
      assert events[n] in events;
      if ReplayFrom(Rebuilt(b), events).Rebuilt? && before.Rebuilt? {
        PlainShadows(t, before.task, events[n]);
      }
    }
  }

  /** Wherever replay stops inside the events, what it has rebuilt has unique claims. */
  ghost predicate HeldAlong(b: Task, events: seq<Event>) {
    forall k :: 0 <= k <= |events| && ReplayFrom(Rebuilt(b), events[..k]).Rebuilt?
      ==> Held(ReplayFrom(Rebuilt(b), events[..k]).task)
  }

  lemma CalmHeld(b: Task, events: seq<Event>)
    requires Held(b) && forall e :: e in events ==> Calm(e)
    ensures HeldAlong(b, events)
  {
    forall k | 0 <= k <= |events| && ReplayFrom(Rebuilt(b), events[..k]).Rebuilt?
      ensures Held(ReplayFrom(Rebuilt(b), events[..k]).task)
    {
      CalmFrom(b, events[..k]);
      UnderHeld(b, ReplayFrom(Rebuilt(b), events[..k]).task);
    }
  }

  lemma FirstThenCalm(b: Task, e: Event, rest: seq<Event>)
    requires Held(b) && (ReplayEvent(b, e).Rebuilt? ==> Held(ReplayEvent(b, e).task))
    requires forall x :: x in rest ==> Calm(x)
    ensures HeldAlong(b, [e] + rest)
  {
    forall k | 0 <= k <= 1 + |rest| && ReplayFrom(Rebuilt(b), ([e] + rest)[..k]).Rebuilt?
      ensures Held(ReplayFrom(Rebuilt(b), ([e] + rest)[..k]).task)
    {
      if k > 0 {
        assert ([e] + rest)[..k] == [e] + rest[..k - 1];
        FirstThen(b, e, rest[..k - 1]);
        if ReplayEvent(b, e).Rebuilt? {
          CalmHeld(ReplayEvent(b, e).task, rest);
        } else {
          BrokenStays(rest[..k - 1]);
        }
      }
    }
  }

  lemma FirstThen(b: Task, e: Event, rest: seq<Event>)
    ensures ReplayFrom(Rebuilt(b), [e] + rest) == ReplayFrom(ReplayEvent(b, e), rest)
  {
    ReplayFromAppend(Rebuilt(b), [e], rest);
    ReplayFromOne(Rebuilt(b), e);
  }

  /** What replaying a call's events from a shadow of the task has to come to. */
  ghost predicate Follows(b: Task, events: seq<Event>, last: Task) {
    && HeldAlong(b, events)
    && (ReplayFrom(Rebuilt(b), events).Rebuilt? ==> Shadows(last, ReplayFrom(Rebuilt(b), events).task))
  }

  /** The first event brings replay into the shadow of the next task, and plain ones follow. */
  lemma FollowsFirst(b: Task, e: Event, rest: seq<Event>, last: Task)
    requires Held(b) && Held(last) && forall x :: x in rest ==> Plain(x)
    requires ReplayEvent(b, e).Rebuilt? ==> Shadows(last, ReplayEvent(b, e).task)
    ensures Follows(b, [e] + rest, last)
  {
    FirstThen(b, e, rest);
    if ReplayEvent(b, e).Rebuilt? {
      UnderHeld(last, ReplayEvent(b, e).task);
      PlainFrom(last, ReplayEvent(b, e).task, rest);
    } else {
      BrokenStays(rest);
    }
    FirstThenCalm(b, e, rest);
  }

  lemma {:induction false} ReadyEventsPlain(before: seq<Step>, after: seq<Step>, n: nat)
    requires n <= |before| == |after|
    ensures forall e :: e in ReadyEvents(before, after, n) ==> Plain(e)
  {
    if n > 0 {
      ReadyEventsPlain(before, after, n - 1);
    }
  }

  lemma PromotionEventsPlain(before: Task, after: Task)
    requires |before.steps| == |after.steps|
    ensures forall e :: e in PromotionEvents(before, after) ==> Plain(e)
  {
    ReadyEventsPlain(before.steps, after.steps, |after.steps|);
  }

  // ---------------------------------------------------------------- the calls

  /** A change of one step on both sides that leaves the step in its shadow. */
  lemma ChangeShadows(t: Task, b: Task, i: nat, s: Step, x: Step)
    requires Shadows(t, b) && i < |t.steps|
    requires s.id == t.steps[i].id && StepUnder(s, x) && (Live(s) ==> x.owner == s.owner)
    ensures Shadows(t.(steps := t.steps[i := s]), b.(steps := b.steps[i := x]))
  {
    var u, v := t.(steps := t.steps[i := s]), b.(steps := b.steps[i := x]);
    forall j | 0 <= j < |u.steps|
      ensures StepUnder(u.steps[j], v.steps[j])
      ensures Live(u.steps[j]) ==> v.steps[j].owner == u.steps[j].owner
    {
      assert StepUnder(t.steps[j], b.steps[j]);
    }
  }

  lemma PromotedShadows(t: Task, b: Task)
    requires Shadows(t, b)
    ensures Shadows(t, Promote(b)) && Shadows(Promote(t), Promote(b))
  {
    PromoteUnder(t);
    PromoteUnder(b);
    UnderTransitive(t, b, Promote(b));
    UnderTransitive(Promote(t), t, Promote(b));
    forall j | 0 <= j < |t.steps| && Live(Promote(t).steps[j])
      ensures Promote(b).steps[j].owner == Promote(t).steps[j].owner
    {
      assert StepUnder(t.steps[j], Promote(t).steps[j]);
    }
  }

  /** A step's event replayed in the shadow of the same change. */
  lemma StepShadows(t: Task, b: Task, i: nat, s: Step, id: StepId, c: Change)
    requires Shadows(t, b) && i < |t.steps| && i == Find(b.steps, id)
    requires s.id == t.steps[i].id && StepUnder(s, ApplyChange(b.steps[i], c))
    requires Live(s) ==> ApplyChange(b.steps[i], c).owner == s.owner
    ensures var u := t.(steps := t.steps[i := s]);
      ReplayEvent(b, StepEvent(id, c)).Rebuilt?
      && Shadows(u, ReplayEvent(b, StepEvent(id, c)).task) && Shadows(Promote(u), ReplayEvent(b, StepEvent(id, c)).task)
  {
    ChangeShadows(t, b, i, s, ApplyChange(b.steps[i], c));
    PromotedShadows(t.(steps := t.steps[i := s]), b.(steps := b.steps[i := ApplyChange(b.steps[i], c)]));
  }

  lemma ClaimFollows(t: Task, b: Task, id: StepId, owner: Owner, lease: Time)
    requires Held(t) && Shadows(t, b) && ClaimStep(t, id, owner, lease).Accepted?
    ensures var o := ClaimStep(t, id, owner, lease);
      Held(o.task) && Follows(b, o.events, o.task)
  {
    var o := ClaimStep(t, id, owner, lease);
    var i := Find(t.steps, id);
    var e := StepEvent(id, StepClaimed(owner, lease));
    UnderHeld(t, b);
    UnderFind(t, b, id);
    forall j | 0 <= j < |t.steps| && j != i && Live(o.task.steps[j]) && o.task.steps[j].owner.Some?
      ensures o.task.steps[j].owner.value.run != owner.run
    {
      assert o.task.steps[j] == t.steps[j] && !OwnedBy(t.steps[j], owner.run);
    }
    assert StepUnder(t.steps[i], b.steps[i]);
    StepShadows(t, b, i, o.task.steps[i], id, e.change);
    FollowsFirst(b, e, [], o.task);
    assert [e] + [] == [e];
  }

  /** What a report makes of the step and of the step in its shadow. */
  lemma ReportStep(a: Step, b: Step, request: Option<StepStatus>, lease: Time)
    requires StepUnder(a, b) && (Live(a) ==> b.owner == a.owner) && (request == Some(Running) ==> Live(a))
    requires Requested(a, request, lease).Some?
    ensures var (s, change) := Requested(a, request, lease).value;
      var x := ApplyChange(b, change);
      && StepUnder(a, s) && StepUnder(s, x)
      && (Live(s) ==> x.owner == s.owner)
  {
  }

  lemma ReportFollows(t: Task, b: Task, id: StepId, request: Option<StepStatus>, lease: Time)
    requires Held(t) && Shadows(t, b) && OwnersKept(t, Report(id, request, lease))
    requires UpdateStep(t, id, request, lease).Accepted?
    ensures var o := UpdateStep(t, id, request, lease);
      Held(o.task) && Follows(b, o.events, o.task)
  {
    var i := Find(t.steps, id);
    var (s, change) := Requested(t.steps[i], request, lease).value;
    var before := t.(steps := t.steps[i := s]);
    UnderHeld(t, b);
    UnderFind(t, b, id);
    ReportStep(t.steps[i], b.steps[i], request, lease);
    StepShadows(t, b, i, s, id, change);
    ChangeUnder(t, i, s);
    UnderHeld(t, Promote(before));
    PromotionEventsPlain(before, Promote(before));
    FollowsFirst(b, StepEvent(id, change), PromotionEvents(before, Promote(before)), Promote(before));
  }

  lemma UpdateHeld(t: Task, ops: seq<Operation>)
    requires Held(t) && UpdateTask(t, ops).Accepted?
    ensures Held(UpdateTask(t, ops).task)
  {
    var batch := ApplyBatch(t, ops).value;
    BatchOwners(t, ops);
    ClaimsFromOwners(t, batch.task);
    PromoteUnder(batch.task);
    UnderHeld(batch.task, Promote(batch.task));
  }

  lemma UpdateFollows(t: Task, b: Task, ops: seq<Operation>)
    requires Held(t) && Held(b) && UpdateTask(t, ops).Accepted?
    ensures var o := UpdateTask(t, ops);
      Held(o.task) && Follows(b, o.events, o.task)
  {
    var o := UpdateTask(t, ops);
    var batch := ApplyBatch(t, ops).value;
    UpdateHeld(t, ops);
    BatchEventsSplit(batch);
    PromotionEventsPlain(batch.task, o.task);
    FollowsFirst(b, TaskUpdated(o.task), AfterSnapshot(batch), o.task);
  }

  /** What a list of retiring or expiring events makes of the steps it names, and leaves of the others. */
  lemma {:induction false} BulkReplay(b: Task, ids: seq<StepId>, c: Change)
    requires c.StepFailed? || c.StepCancelled? || c.StepLeaseExpired?
    requires UniqueIds(b.steps)
    ensures var r := ReplayFrom(Rebuilt(b), StepEvents(ids, c));
      r.Rebuilt? ==>
        && Under(b, r.task)
        && forall i :: 0 <= i < |b.steps| ==>
          if b.steps[i].id in ids then !Live(r.task.steps[i]) else r.task.steps[i].owner == b.steps[i].owner
    decreases |ids|
  {
    if ids != [] {
      var n := |ids| - 1;
      var events := StepEvents(ids, c);
      assert events[..n] == StepEvents(ids[..n], c) && events[n] == StepEvent(ids[n], c);
      BulkReplay(b, ids[..n], c);
      var before := ReplayFrom(Rebuilt(b), events[..n]);
      if before.Rebuilt? && ReplayEvent(before.task, events[n]).Rebuilt? {
        BulkStep(b, ids[..n], before.task, ids[n], c);
        assert ids == ids[..n] + [ids[n]];
      }
    }
  }

  lemma BulkStep(b: Task, ids: seq<StepId>, v: Task, id: StepId, c: Change)
    requires c.StepFailed? || c.StepCancelled? || c.StepLeaseExpired?
    requires UniqueIds(b.steps) && Under(b, v) && ReplayEvent(v, StepEvent(id, c)).Rebuilt?
    requires forall i :: 0 <= i < |b.steps| ==>
      if b.steps[i].id in ids then !Live(v.steps[i]) else v.steps[i].owner == b.steps[i].owner
    ensures var u := ReplayEvent(v, StepEvent(id, c)).task;
      && Under(b, u)
      && forall i :: 0 <= i < |b.steps| ==>
        if b.steps[i].id in ids + [id] then !Live(u.steps[i]) else u.steps[i].owner == b.steps[i].owner
  {
    var u := ReplayEvent(v, StepEvent(id, c)).task;
    var k := Find(v.steps, id);
    CalmUnder(v, StepEvent(id, c));
    UnderTransitive(b, v, u);
    forall i | 0 <= i < |b.steps|
      ensures if b.steps[i].id in ids + [id] then !Live(u.steps[i]) else u.steps[i].owner == b.steps[i].owner
    {
      assert StepUnder(b.steps[i], v.steps[i]) && StepUnder(v.steps[i], u.steps[i]);
      if b.steps[i].id == id {
        assert StepUnder(b.steps[k], v.steps[k]);
        assert i == k;
      }
    }
  }

  ghost predicate NoneLive(t: Task) {
    forall i :: 0 <= i < |t.steps| ==> !Live(t.steps[i])
  }

  lemma NoneLiveShadows(t: Task, b: Task)
    requires NoneLive(t) && NoneLive(b) && |t.steps| == |b.steps|
    requires forall i :: 0 <= i < |t.steps| ==> t.steps[i].id == b.steps[i].id
    ensures Shadows(t, b)
  {
  }

  lemma {:induction false} LiveInOpenIds(steps: seq<Step>, n: nat, i: nat)
    requires i < n <= |steps| && Live(steps[i])
    ensures steps[i].id in OpenIds(steps, n)
  {
    if i < n - 1 {
      LiveInOpenIds(steps, n - 1, i);
    }
  }

  /** The events that end a task, when every live step is named: nothing is live afterwards. */
  lemma EndingFollows(t: Task, b: Task, ids: seq<StepId>, c: Change, goal: Task)
    requires Held(t) && Shadows(t, b) && Retires(c) && NoneLive(goal) && |goal.steps| == |t.steps|
    requires forall i :: 0 <= i < |t.steps| ==> goal.steps[i].id == t.steps[i].id
    requires forall i :: 0 <= i < |t.steps| && Live(t.steps[i]) ==> t.steps[i].id in ids
    ensures Held(goal) && Follows(b, StepEvents(ids, c) + [TaskFinished(goal.status, ids)], goal)
  {
    var last := TaskFinished(goal.status, ids);
    var events := StepEvents(ids, c) + [last];
    UnderHeld(t, b);
    CalmHeld(b, events);
    BulkReplay(b, ids, c);
    assert events[..|events| - 1] == StepEvents(ids, c);
    var mid := ReplayFrom(Rebuilt(b), StepEvents(ids, c));
    if mid.Rebuilt? && ReplayEvent(mid.task, last).Rebuilt? {
      CalmUnder(mid.task, last);
      EndingDead(t, b, ids, mid.task, ReplayEvent(mid.task, last).task, goal);
    }
  }

  lemma EndingDead(t: Task, b: Task, ids: seq<StepId>, mid: Task, end: Task, goal: Task)
    requires Under(t, b) && Under(b, mid) && Under(mid, end) && NoneLive(goal) && |goal.steps| == |t.steps|
    requires forall i :: 0 <= i < |t.steps| ==> goal.steps[i].id == t.steps[i].id
    requires forall i :: 0 <= i < |t.steps| && Live(t.steps[i]) ==> t.steps[i].id in ids
    requires forall i :: 0 <= i < |b.steps| && b.steps[i].id in ids ==> !Live(mid.steps[i])
    ensures Shadows(goal, end)
  {
    forall i | 0 <= i < |t.steps|
      ensures !Live(end.steps[i]) && end.steps[i].id == goal.steps[i].id
    {
      assert StepUnder(t.steps[i], b.steps[i]) && StepUnder(b.steps[i], mid.steps[i])
          && StepUnder(mid.steps[i], end.steps[i]);
    }
    NoneLiveShadows(goal, end);
  }

  lemma CompleteFollows(t: Task, b: Task)
    requires Held(t) && Shadows(t, b) && CompleteTask(t).Accepted?
    ensures var o := CompleteTask(t);
      Held(o.task) && Follows(b, o.events, o.task)
  {
    EndingFollows(t, b, LeftoverIds(t.steps, |t.steps|), StepCancelled, CompleteTask(t).task);
  }

  lemma TerminateFollows(t: Task, b: Task, cancel: bool)
    requires Held(t) && Shadows(t, b) && TerminateTask(t, cancel).Accepted?
    ensures var o := TerminateTask(t, cancel);
      Held(o.task) && Follows(b, o.events, o.task)
  {
    forall i | 0 <= i < |t.steps| && Live(t.steps[i])
      ensures t.steps[i].id in OpenIds(t.steps, |t.steps|)
    {
      LiveInOpenIds(t.steps, |t.steps|, i);
    }
    EndingFollows(t, b, OpenIds(t.steps, |t.steps|), if cancel then StepCancelled else StepFailed,
                  TerminateTask(t, cancel).task);
  }

  lemma ReconcileFollows(t: Task, b: Task, now: Time)
    requires Held(t) && Shadows(t, b)
    ensures var o := ReconcileLeases(t, now);
      Held(o.task) && Follows(b, o.events, o.task)
  {
    var o := ReconcileLeases(t, now);
    var ids := ExpiredIds(t.steps, now, |t.steps|);
    UnderHeld(t, b);
    if TerminalTask(t) || ids == [] {
      CalmHeld(b, []);
    } else {
      var before := t.(steps := FreeExpired(t.steps, now));
      var expiries, ready := StepEvents(ids, StepLeaseExpired), PromotionEvents(before, o.task);
      assert Under(t, before);
      PromoteUnder(before);
      UnderHeld(t, before);
      UnderHeld(before, o.task);
      PromotionEventsPlain(before, o.task);
      CalmHeld(b, expiries + ready);
      BulkReplay(b, ids, StepLeaseExpired);
      ReplayFromAppend(Rebuilt(b), expiries, ready);
      var mid := ReplayFrom(Rebuilt(b), expiries);
      if mid.Rebuilt? {
        ExpiryShadows(t, b, now, ids, mid.task, o.task);
        PlainFrom(o.task, mid.task, ready);
      } else {
        CalmNotRestored(b, expiries, ready);
      }
    }
  }

  lemma CalmNotRestored(b: Task, first: seq<Event>, rest: seq<Event>)
    requires (forall e :: e in first + rest ==> Calm(e)) && !ReplayFrom(Rebuilt(b), first).Rebuilt?
    ensures !ReplayFrom(Rebuilt(b), first + rest).Rebuilt?
  {
    ReplayFromAppend(Rebuilt(b), first, rest);
    NeverNone(b, first);
    BrokenStays(rest);
  }

  lemma ExpiryShadows(t: Task, b: Task, now: Time, ids: seq<StepId>, mid: Task, next: Task)
    requires UniqueIds(t.steps) && Shadows(t, b) && Under(b, mid) && ids == ExpiredIds(t.steps, now, |t.steps|)
    requires next == Promote(t.(steps := FreeExpired(t.steps, now)))
    requires forall i :: 0 <= i < |b.steps| ==>
      if b.steps[i].id in ids then !Live(mid.steps[i]) else mid.steps[i].owner == b.steps[i].owner
    ensures Shadows(next, mid)
  {
    var before := t.(steps := FreeExpired(t.steps, now));
    PromoteUnder(before);
    forall i | 0 <= i < |t.steps|
      ensures StepUnder(next.steps[i], mid.steps[i])
      ensures Live(next.steps[i]) ==> mid.steps[i].owner == next.steps[i].owner
    {
      ExpiredIdsOf(t.steps, now, |t.steps|, i);
      assert StepUnder(t.steps[i], b.steps[i]) && StepUnder(b.steps[i], mid.steps[i]);
      assert StepUnder(before.steps[i], next.steps[i]) && StepUnder(next.steps[i], before.steps[i]);
    }
  }

  lemma RetiredUnder(t: Task, i: nat, s: Step)
    requires i < |t.steps| && s.id == t.steps[i].id && !Live(s)
    ensures Under(t, t.(steps := t.steps[i := s]))
  {
  }

  lemma LoseWorkerFollows(t: Task, b: Task, run: nat)
    requires Held(t) && Shadows(t, b)
    ensures var o := FailUnclosed(t, run);
      Held(o.task) && Follows(b, o.events, o.task)
  {
    var o := FailUnclosed(t, run);
    var i := FirstHeld(t.steps, run);
    UnderHeld(t, b);
    if TerminalTask(t) || i == |t.steps| {
      CalmHeld(b, []);
    } else {
      var e := StepEvent(t.steps[i].id, StepFailed);
      FindUnique(t.steps, i);
      UnderFind(t, b, t.steps[i].id);
      assert StepUnder(t.steps[i], b.steps[i]);
      StepShadows(t, b, i, o.task.steps[i], t.steps[i].id, StepFailed);
      RetiredUnder(t, i, o.task.steps[i]);
      UnderHeld(t, o.task);
      FollowsFirst(b, e, [], o.task);
      assert [e] + [] == [e];
    }
  }

  lemma PerformFollows(t: Task, b: Task, c: Call)
    requires Held(t) && Shadows(t, b) && OwnersKept(t, c) && Perform(t, c).Accepted?
    ensures Held(Perform(t, c).task) && Follows(b, Perform(t, c).events, Perform(t, c).task)
  {
    match c
    case Update(ops) =>
      UnderHeld(t, b);
      UpdateFollows(t, b, ops);
    case Claim(id, owner, lease) => ClaimFollows(t, b, id, owner, lease);
    case Report(id, request, lease) => ReportFollows(t, b, id, request, lease);
    case Complete => CompleteFollows(t, b);
    case Terminate(cancel) => TerminateFollows(t, b, cancel);
    case Reconcile(now) => ReconcileFollows(t, b, now);
    case LoseWorker(run) => LoseWorkerFollows(t, b, run);
  }

  // ---------------------------------------------------------------- runs

  /** Every call keeps to the owner discipline; nothing is asked of batches or restarts. */
  ghost predicate OwnersKeptRun(r: Record, actions: seq<Action>) {
    actions == [] ||
    (var n := |actions| - 1;
     && OwnersKeptRun(r, actions[..n])
     && (actions[n].Do? ==> OwnersKept(Run(r, actions[..n]).task, actions[n].call)))
  }

  /** Claims are unique in memory and in every task a prefix of the log rebuilds. */
  ghost predicate ClaimsSafe(t: Task, events: seq<Event>) {
    && Held(t)
    && (forall k :: 0 <= k <= |events| && ReplayLines(events[..k]).Rebuilt? ==> Held(ReplayLines(events[..k]).task))
    && (ReplayLines(events).Rebuilt? ==> Shadows(t, ReplayLines(events).task))
    && events != [] && !ReplayLines(events).NoTask?
  }

  lemma BatchClaimsSafe(t: Task, events: seq<Event>, c: Call)
    requires ClaimsSafe(t, events) && OwnersKept(t, c) && Perform(t, c).Accepted?
    ensures ClaimsSafe(Perform(t, c).task, events + Perform(t, c).events)
  {
    var o := Perform(t, c);
    var r := ReplayLines(events);
    ReplayFromAppend(NoTask, events, o.events);
    PerformHeld(t, c);
    if r.Rebuilt? {
      PerformFollows(t, r.task, c);
      NeverNone(r.task, o.events);
    } else {
      BrokenStays(o.events);
    }
    forall k | 0 <= k <= |events + o.events| && ReplayLines((events + o.events)[..k]).Rebuilt?
      ensures Held(ReplayLines((events + o.events)[..k]).task)
    {
      if k <= |events| {
        assert (events + o.events)[..k] == events[..k];
      } else {
        var j := k - |events|;
        assert (events + o.events)[..k] == events + o.events[..j];
        ReplayFromAppend(NoTask, events, o.events[..j]);
        if r.Broken? {
          BrokenStays(o.events[..j]);
        }
      }
    }
  }

  /** A task is in its own shadow, so calls keep claims unique whatever the log says. */
  lemma PerformHeld(t: Task, c: Call)
    requires Held(t) && OwnersKept(t, c) && Perform(t, c).Accepted?
    ensures Held(Perform(t, c).task)
  {
    PerformFollows(t, t, c);
  }

  lemma ReloadClaimsSafe(r: Record, kept: nat)
    requires ClaimsSafe(r.task, EventsOf(r.log)) && Reloads(r, kept)
    ensures var q := Reload(r, kept);
      ClaimsSafe(q.task, EventsOf(q.log))
  {
    var events := EventsOf(r.log);
    EventsOfPrefix(r.log, kept);
    var back := ReplayLines(events[..kept]).task;
    assert Held(back);
    forall k | 0 <= k <= kept && ReplayLines(events[..kept][..k]).Rebuilt?
      ensures Held(ReplayLines(events[..kept][..k]).task)
    {
      assert events[..kept][..k] == events[..k];
    }
  }

  lemma ActClaimsSafe(r: Record, a: Action)
    requires ClaimsSafe(r.task, EventsOf(r.log)) && (a.Do? ==> OwnersKept(r.task, a.call))
    ensures ClaimsSafe(Act(r, a).task, EventsOf(Act(r, a).log))
  {
    match a
    case Do(c, appended) =>
      var o := Perform(r.task, c);
      if o.Accepted? && (o.events == [] || appended) {
        EventsOfLines(r.log, o.events, r.walSeq);
        BatchClaimsSafe(r.task, EventsOf(r.log), c);
      }
    case Restart(kept) =>
      if Reloads(r, kept) {
        ReloadClaimsSafe(r, kept);
      }
  }

  lemma CreatedClaimsSafe(raws: seq<NewStep>)
    requires CreateTask(raws).Accepted?
    ensures ClaimsSafe(Created(raws).task, EventsOf(Created(raws).log))
  {
    var r := Created(raws);
    CreatedLog(raws);
    CreatedReplays(raws, true);
    var events := EventsOf(r.log);
    forall k | 0 <= k <= |events| && ReplayLines(events[..k]).Rebuilt?
      ensures Held(ReplayLines(events[..k]).task)
    {
      assert k > 0;
    }
  }

  lemma {:induction false} RunClaimsSafe(raws: seq<NewStep>, actions: seq<Action>)
    requires CreateTask(raws).Accepted? && OwnersKeptRun(Created(raws), actions)
    ensures var r := Run(Created(raws), actions);
      ClaimsSafe(r.task, EventsOf(r.log))
    decreases |actions|
  {
    if actions == [] {
      CreatedClaimsSafe(raws);
    } else {
      var n := |actions| - 1;
      RunClaimsSafe(raws, actions[..n]);
      ActClaimsSafe(Run(Created(raws), actions[..n]), actions[n]);
    }
  }

  /**
    Unique live claims.  Under the owner discipline alone each run owns at most one live step, in every reachable
    task.
   */
  lemma UniqueLiveClaims(raws: seq<NewStep>, actions: seq<Action>)
    requires CreateTask(raws).Accepted? && OwnersKeptRun(Created(raws), actions)
    ensures UniqueClaims(Run(Created(raws), actions).task)
  {
    RunClaimsSafe(raws, actions);
  }

  /** So failing a lost worker's step, which stops at the first match, leaves that run no live step. */
  lemma LostWorkerCleared(raws: seq<NewStep>, actions: seq<Action>, run: nat)
    requires CreateTask(raws).Accepted? && OwnersKeptRun(Created(raws), actions)
    requires !TerminalTask(Run(Created(raws), actions).task)
    ensures !HoldsLive(FailUnclosed(Run(Created(raws), actions).task, run).task.steps, run)
  {
    UniqueLiveClaims(raws, actions);
    LostWorkerHoldsNothing(Run(Created(raws), actions).task, run);
  }
}
