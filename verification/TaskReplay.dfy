/**
  The write-ahead log's events and the recovery interpreter that folds them back into a task.

  Replay is separate code from the service: it never sees the ready-to-pending demotions, which the
  service does not log, and it keeps the owner of a step that fails.  `Agrees` is the relation that
  survives both differences.
 */
module TaskReplay {
  import opened Wrappers
  import opened TaskModel

  datatype Change =
    | StepClaimed(owner: Owner, lease: Time)
    | StepStarted(renewed: Option<Time>)
    | StepUpdated
    | StepReady
    | StepBlocked
    | StepCompleted
    | StepFailed
    | StepCancelled
    | StepReopened
    | StepLeaseExpired

  datatype Event =
    | TaskCreated(task: Task)
    | TaskUpdated(summary: Task)
    | TaskStarted
    | TaskReopened
    | TaskFinished(status: TaskStatus, settled: seq<StepId>)
    | StepEvent(id: StepId, change: Change)

  /** `Broken` is the exception that makes a log unavailable; `NoTask` is a log with no task in it yet. */
  datatype Replayed = NoTask | Rebuilt(task: Task) | Broken

  /** The fields each step event assigns. */
  function ApplyChange(s: Step, c: Change): Step {
    match c
    case StepClaimed(owner, lease) => s.(status := Claimed, owner := Some(owner), lease := Some(lease))
    case StepStarted(renewed) => s.(status := Running, lease := if renewed.Some? then renewed else s.lease)
    case StepUpdated => s
    case StepReady => s.(status := Ready)
    case StepBlocked => s.(status := Blocked, owner := None, lease := None)
    case StepCompleted => s.(status := Completed, lease := None)
    case StepFailed => s.(status := Failed, lease := None)
    case StepCancelled => s.(status := Cancelled, lease := None)
    case StepReopened => s.(status := Pending)
    case StepLeaseExpired => s.(status := Pending, owner := None, lease := None)
  }

  /** The step status that `task_completed`, `task_failed` and `task_cancelled` give the steps they list. */
  function SettledStatus(status: TaskStatus): StepStatus {
    if status.TaskFailed? then Failed else Cancelled
  }

  /** Settles the listed steps one after the other; none when an id is missing. */
  function SettleListed(steps: seq<Step>, status: StepStatus, ids: seq<StepId>): Option<seq<Step>> {
    if ids == [] then Some(steps)
    else
      match SettleListed(steps, status, ids[..|ids| - 1])
      case None => None
      case Some(done) =>
        var i := Find(done, ids[|ids| - 1]);
        if i == |done| then None
        else Some(done[i := done[i].(status := status, owner := None, lease := None)])
  }

  function ReplayStep(t: Task, i: nat, c: Change): Task
    requires i < |t.steps|
  {
    Promote(t.(steps := t.steps[i := ApplyChange(t.steps[i], c)]))
  }

  /** `replay_task_event` on a task that exists. */
  function ReplayEvent(t: Task, e: Event): Replayed {
    match e
    case TaskCreated(task) => Rebuilt(task.(roots := Roots(task.steps)))
    case TaskUpdated(summary) => Rebuilt(summary)
    case TaskStarted => Rebuilt(t.(status := TaskRunning))
    case TaskReopened => Rebuilt(Promote(t.(status := TaskPending)))
    case TaskFinished(status, settled) =>
      (match SettleListed(t.steps, SettledStatus(status), settled)
       case None => Broken
       case Some(steps) => Rebuilt(t.(status := status, steps := steps)))
    case StepEvent(id, change) =>
      var i := Find(t.steps, id);
      if i == |t.steps| then Broken else Rebuilt(ReplayStep(t, i, change))
  }

  /** One line of the log: until a task is created every other event is skipped. */
  function ReplayLine(r: Replayed, e: Event): Replayed {
    match r
    case Broken => Broken
    case NoTask => if e.TaskCreated? then Rebuilt(e.task.(roots := Roots(e.task.steps))) else NoTask
    case Rebuilt(t) => ReplayEvent(t, e)
  }

  /** Replays a list of lines from a given point. */
  function ReplayFrom(r: Replayed, events: seq<Event>): Replayed {
    if events == [] then r
    else ReplayLine(ReplayFrom(r, events[..|events| - 1]), events[|events| - 1])
  }

  /** The loop of `replay_wal`. */
  function ReplayLines(log: seq<Event>): Replayed {
    ReplayFrom(NoTask, log)
  }

  /** The task `replay_wal` registers, after its final `sync_task_roots`. */
  function Recover(log: seq<Event>): Replayed {
    match ReplayLines(log)
    case Rebuilt(t) => Rebuilt(t.(roots := Roots(t.steps)))
    case other => other
  }

  // ---------------------------------------------------------------- agreement

  /** Equal except for the owner; with `owners`, live steps also have equal owners. */
  predicate StepAgrees(a: Step, b: Step, owners: bool) {
    && a.(owner := None) == b.(owner := None)
    && (owners && Live(a) ==> a.owner == b.owner)
  }

  predicate Agrees(a: Task, b: Task, owners: bool) {
    && a.status == b.status
    && a.roots == b.roots
    && |a.steps| == |b.steps|
    && forall i :: 0 <= i < |a.steps| ==> StepAgrees(a.steps[i], b.steps[i], owners)
  }

  lemma AgreesTransitive(a: Task, b: Task, c: Task, owners: bool)
    requires Agrees(a, b, owners) && Agrees(b, c, owners)
    ensures Agrees(a, c, owners)
  {
    forall i | 0 <= i < |a.steps|
      ensures StepAgrees(a.steps[i], c.steps[i], owners)
    {
      assert StepAgrees(a.steps[i], b.steps[i], owners) && StepAgrees(b.steps[i], c.steps[i], owners);
      assert b.steps[i].status == a.steps[i].(owner := None).status;
    }
  }

  lemma AgreesSymmetric(a: Task, b: Task, owners: bool)
    requires Agrees(a, b, owners)
    ensures Agrees(b, a, owners)
  {
    forall i | 0 <= i < |b.steps|
      ensures StepAgrees(b.steps[i], a.steps[i], owners)
    {
      assert StepAgrees(a.steps[i], b.steps[i], owners);
      assert b.steps[i].status == a.steps[i].(owner := None).status;
    }
  }

  lemma AgreesFields(a: Task, b: Task, owners: bool)
    requires Agrees(a, b, owners)
    ensures SameShape(a.steps, b.steps)
    ensures forall i :: 0 <= i < |a.steps| ==>
      a.steps[i].status == b.steps[i].status && a.steps[i].lease == b.steps[i].lease
    ensures CompletedIds(a.steps) == CompletedIds(b.steps)
  {
    forall i | 0 <= i < |a.steps|
      ensures a.steps[i].status == b.steps[i].status && a.steps[i].lease == b.steps[i].lease
      ensures a.steps[i].id == b.steps[i].id && a.steps[i].deps == b.steps[i].deps
        && a.steps[i].required == b.steps[i].required
    {
      assert StepAgrees(a.steps[i], b.steps[i], owners);
      var x, y := a.steps[i].(owner := None), b.steps[i].(owner := None);
      assert x.status == y.status && x.lease == y.lease && x.id == y.id && x.deps == y.deps && x.required == y.required;
    }
    CompletedAgree(a.steps, b.steps);
  }

  /** Well-formedness never looks at owners. */
  lemma AgreesWF(a: Task, b: Task, owners: bool)
    requires Agrees(a, b, owners) && WF(a)
    ensures WF(b)
  {
    AgreesFields(a, b, owners);
    SameShapeSound(a.steps, b.steps);
    SameShapeRoots(a.steps, b.steps);
    assert AnyActive(b.steps) ==> AnyActive(a.steps) by {
      if AnyActive(b.steps) {
        var i :| 0 <= i < |b.steps| && (b.steps[i].status.Ready? || Live(b.steps[i]));
        assert a.steps[i].status == b.steps[i].status;
      }
    }
    forall i | 0 <= i < |b.steps| && b.steps[i].lease.Some?
      ensures Live(b.steps[i])
    {
      assert a.steps[i].lease == b.steps[i].lease;
    }
  }

  lemma AgreesClaims(a: Task, b: Task)
    requires Agrees(a, b, true) && UniqueClaims(a)
    ensures UniqueClaims(b)
  {
    AgreesFields(a, b, true);
    forall i | 0 <= i < |a.steps|
      ensures Live(a.steps[i]) == Live(b.steps[i]) && (Live(a.steps[i]) ==> a.steps[i].owner == b.steps[i].owner)
    {
      assert StepAgrees(a.steps[i], b.steps[i], true);
    }
  }

  // ---------------------------------------------------------------- replay respects agreement

  /** Only a start event carries an owner over without writing it; it must meet a live step. */
  predicate StartsLive(t: Task, e: Event) {
    e.StepEvent? && e.change.StepStarted? && Has(t.steps, e.id) ==> Live(t.steps[Find(t.steps, e.id)])
  }

  lemma PromoteAgrees(a: Task, b: Task, owners: bool)
    requires Agrees(a, b, owners)
    ensures Agrees(Promote(a), Promote(b), owners)
  {
    AgreesFields(a, b, owners);
    var u, v := Promote(a), Promote(b);
    forall i | 0 <= i < |u.steps|
      ensures StepAgrees(u.steps[i], v.steps[i], owners)
    {
      assert StepAgrees(a.steps[i], b.steps[i], owners);
    }
    assert AnyActive(u.steps) == AnyActive(v.steps) by {
      forall i | 0 <= i < |u.steps|
        ensures u.steps[i].status == v.steps[i].status
      {
        assert StepAgrees(u.steps[i], v.steps[i], owners);
        assert u.steps[i].(owner := None).status == v.steps[i].(owner := None).status;
      }
      if AnyActive(u.steps) {
        var i :| 0 <= i < |u.steps| && (u.steps[i].status.Ready? || Live(u.steps[i]));
        assert v.steps[i].status == u.steps[i].status;
      }
      if AnyActive(v.steps) {
        var i :| 0 <= i < |v.steps| && (v.steps[i].status.Ready? || Live(v.steps[i]));
        assert v.steps[i].status == u.steps[i].status;
      }
    }
  }

  lemma ChangeAgrees(a: Step, b: Step, c: Change, owners: bool)
    requires StepAgrees(a, b, owners)
    requires owners && c.StepStarted? ==> Live(a)
    ensures StepAgrees(ApplyChange(a, c), ApplyChange(b, c), owners)
  {
    var x, y := a.(owner := None), b.(owner := None);
    assert x.id == y.id && x.status == y.status && x.deps == y.deps && x.required == y.required && x.lease == y.lease;
  }

  lemma {:induction false} SettleAgrees(a: Task, b: Task, status: StepStatus, ids: seq<StepId>, owners: bool)
    requires Agrees(a, b, owners)
    ensures var x, y := SettleListed(a.steps, status, ids), SettleListed(b.steps, status, ids);
      x.Some? == y.Some? && (x.Some? ==> Agrees(a.(steps := x.value), b.(steps := y.value), owners))
  {
    if ids != [] {
      SettleAgrees(a, b, status, ids[..|ids| - 1], owners);
      var x, y := SettleListed(a.steps, status, ids[..|ids| - 1]), SettleListed(b.steps, status, ids[..|ids| - 1]);
      if x.Some? {
        AgreesFields(a.(steps := x.value), b.(steps := y.value), owners);
        SameShapeFind(x.value, y.value, ids[|ids| - 1]);
        var i := Find(x.value, ids[|ids| - 1]);
        if i < |x.value| {
          assert StepAgrees(x.value[i], y.value[i], owners);
        }
      }
    }
  }

  /** Replay is blind to whatever `Agrees` ignores. */
  lemma ReplayAgrees(a: Task, b: Task, e: Event, owners: bool)
    requires Agrees(a, b, owners)
    requires owners ==> StartsLive(a, e)
    ensures ReplayEvent(a, e).Rebuilt? == ReplayEvent(b, e).Rebuilt?
    ensures ReplayEvent(a, e).Rebuilt? ==> Agrees(ReplayEvent(a, e).task, ReplayEvent(b, e).task, owners)
  {
    match e
    case TaskCreated(_) =>
    case TaskUpdated(_) =>
    case TaskStarted =>
    case TaskReopened => PromoteAgrees(a.(status := TaskPending), b.(status := TaskPending), owners);
    case TaskFinished(status, settled) =>
      SettleAgrees(a, b, SettledStatus(status), settled, owners);
    case StepEvent(id, change) =>
      AgreesFields(a, b, owners);
      SameShapeFind(a.steps, b.steps, id);
      var i := Find(a.steps, id);
      if i < |a.steps| {
        ChangeAgrees(a.steps[i], b.steps[i], change, owners);
        PromoteAgrees(a.(steps := a.steps[i := ApplyChange(a.steps[i], change)]),
                      b.(steps := b.steps[i := ApplyChange(b.steps[i], change)]), owners);
      }
  }

  // ---------------------------------------------------------------- tracking a batch

  ghost predicate Good(t: Task, owners: bool) {
    WF(t) && (owners ==> UniqueClaims(t))
  }

  /** Replaying `events` from `t` meets no missing step, passes only through good tasks, and ends in `last`. */
  ghost predicate Tracks(t: Task, events: seq<Event>, last: Task, owners: bool)
    decreases |events|
  {
    if events == [] then t == last
    else
      && (owners ==> StartsLive(t, events[0]))
      && ReplayEvent(t, events[0]).Rebuilt?
      && Good(ReplayEvent(t, events[0]).task, owners)
      && Tracks(ReplayEvent(t, events[0]).task, events[1..], last, owners)
  }

  lemma AgreesReflexive(t: Task, owners: bool)
    ensures Agrees(t, t, owners)
  {
  }

  lemma AgreesGood(a: Task, b: Task, owners: bool)
    requires Agrees(a, b, owners) && Good(a, owners)
    ensures Good(b, owners)
  {
    AgreesWF(a, b, owners);
    if owners {
      AgreesClaims(a, b);
    }
  }

  /** A batch that tracks from one task tracks from every agreeing task, to agreeing ends. */
  lemma {:induction false} TracksFromAgreeing(a: Task, b: Task, events: seq<Event>, last: Task, owners: bool)
    returns (end: Task)
    requires Tracks(a, events, last, owners) && Agrees(a, b, owners)
    ensures Tracks(b, events, end, owners) && Agrees(last, end, owners)
    decreases |events|
  {
    if events == [] {
      end := b;
    } else {
      ReplayAgrees(a, b, events[0], owners);
      var x, y := ReplayEvent(a, events[0]).task, ReplayEvent(b, events[0]).task;
      AgreesGood(x, y, owners);
      end := TracksFromAgreeing(x, y, events[1..], last, owners);
      if owners {
        AgreesStartsLive(a, b, events[0]);
      }
    }
  }

  lemma AgreesStartsLive(a: Task, b: Task, e: Event)
    requires Agrees(a, b, true) && StartsLive(a, e)
    ensures StartsLive(b, e)
  {
    AgreesFields(a, b, true);
    if e.StepEvent? {
      SameShapeFind(a.steps, b.steps, e.id);
    }
  }

  /** Tracking composes. */
  lemma {:induction false} TracksAppend(t: Task, first: seq<Event>, mid: Task, rest: seq<Event>, last: Task,
                                        owners: bool)
    requires Tracks(t, first, mid, owners) && Tracks(mid, rest, last, owners)
    ensures Tracks(t, first + rest, last, owners)
    decreases |first|
  {
    if first == [] {
      assert first + rest == rest;
    } else {
      assert (first + rest)[0] == first[0] && (first + rest)[1..] == first[1..] + rest;
      TracksAppend(ReplayEvent(t, first[0]).task, first[1..], mid, rest, last, owners);
    }
  }

  lemma TracksOne(t: Task, e: Event, last: Task, owners: bool)
    requires owners ==> StartsLive(t, e)
    requires ReplayEvent(t, e) == Rebuilt(last) && Good(last, owners)
    ensures Tracks(t, [e], last, owners)
  {
    assert [e][1..] == [];
  }

  lemma ReplayFromOne(r: Replayed, e: Event)
    ensures ReplayFrom(r, [e]) == ReplayLine(r, e)
  {
    assert [e][..0] == [];
  }

  lemma {:induction false} ReplayFromAppend(r: Replayed, first: seq<Event>, rest: seq<Event>)
    ensures ReplayFrom(r, first + rest) == ReplayFrom(ReplayFrom(r, first), rest)
    decreases |rest|
  {
    if rest == [] {
      assert first + rest == first;
    } else {
      var n := |rest| - 1;
      assert (first + rest)[..|first + rest| - 1] == first + rest[..n];
      ReplayFromAppend(r, first, rest[..n]);
    }
  }

  lemma {:induction false} BrokenStays(events: seq<Event>)
    ensures ReplayFrom(Broken, events) == Broken
    decreases |events|
  {
    if events != [] {
      BrokenStays(events[..|events| - 1]);
    }
  }

  lemma {:induction false} NeverNone(b: Task, events: seq<Event>)
    ensures !ReplayFrom(Rebuilt(b), events).NoTask?
    decreases |events|
  {
    if events != [] {
      NeverNone(b, events[..|events| - 1]);
    }
  }

  /** What tracking means for the fold: every non-empty prefix rebuilds a good task, the whole list rebuilds `last`. */
  lemma {:induction false} TracksReplays(t: Task, events: seq<Event>, last: Task, owners: bool)
    requires Tracks(t, events, last, owners)
    ensures ReplayFrom(Rebuilt(t), events) == Rebuilt(last)
    ensures forall k :: 0 < k <= |events| ==>
      ReplayFrom(Rebuilt(t), events[..k]).Rebuilt? && Good(ReplayFrom(Rebuilt(t), events[..k]).task, owners)
    decreases |events|
  {
    if events != [] {
      var e, rest := events[0], events[1..];
      var u := ReplayEvent(t, e).task;
      TracksReplays(u, rest, last, owners);
      ReplayFromOne(Rebuilt(t), e);
      assert events == [e] + rest;
      ReplayFromAppend(Rebuilt(t), [e], rest);
      forall k | 0 < k <= |events|
        ensures ReplayFrom(Rebuilt(t), events[..k]).Rebuilt? && Good(ReplayFrom(Rebuilt(t), events[..k]).task, owners)
      {
        assert events[..k] == [e] + rest[..k - 1];
        ReplayFromAppend(Rebuilt(t), [e], rest[..k - 1]);
      }
    }
  }

  /** A batch of events none of which changes the task. */
  lemma {:induction false} TracksStill(t: Task, events: seq<Event>, owners: bool)
    requires Good(t, owners)
    requires forall e :: e in events ==> ReplayEvent(t, e) == Rebuilt(t) && StartsLive(t, e)
    ensures Tracks(t, events, t, owners)
    decreases |events|
  {
    if events != [] {
      TracksStill(t, events[1..], owners);
    }
  }
}
