/**
  The service itself: methods that edit a private copy of the task step by step, build their log
  entries as they go, append them, and only then commit.  Each is proved to compute exactly the
  outcome of its operation and to commit it log-first.

  `diskOk` is whether the append reaches the disk; a failed append raises and nothing is committed.
 */
module TaskService {
  import opened Wrappers
  import opened DependencyGraph
  import opened TaskModel
  import opened TaskReplay
  import opened TaskOperations
  import opened TaskRuns

  // ---------------------------------------------------------------- shared helpers

  method FindStep(steps: seq<Step>, id: StepId) returns (i: nat)
    ensures i == Find(steps, id)
  {
    i := 0;
    while i < |steps|
      invariant i <= |steps|
      invariant forall j :: 0 <= j < i ==> steps[j].id != id
    {
      if steps[i].id == id {
        return;
      }
      i := i + 1;
    }
  }

  predicate Distinct(ids: seq<StepId>) {
    forall i, j :: 0 <= i < j < |ids| ==> ids[i] != ids[j]
  }

  function Members(ids: seq<StepId>): set<StepId> {
    set x | x in ids
  }

  lemma OneMore(ids: seq<StepId>, x: StepId)
    ensures Members(ids + [x]) == Members(ids) + {x}
    ensures Distinct(ids + [x]) <==> Distinct(ids) && x !in Members(ids)
  {
    var longer := ids + [x];
    assert longer[|ids|] == x && forall k :: 0 <= k < |ids| ==> longer[k] == ids[k];
    if x in ids {
      var k :| 0 <= k < |ids| && ids[k] == x;
      assert longer[k] == longer[|ids|];
    }
  }

  /** A list has as many distinct members as positions exactly when nothing repeats. */
  lemma {:induction false} DistinctCount(ids: seq<StepId>)
    ensures |Members(ids)| <= |ids|
    ensures |Members(ids)| == |ids| <==> Distinct(ids)
  {
    if ids != [] {
      var n := |ids| - 1;
      DistinctCount(ids[..n]);
      OneMore(ids[..n], ids[n]);
      assert ids[..n] + [ids[n]] == ids;
    }
  }

  /** `validate_steps`. */
  method ValidateSteps(steps: seq<Step>) returns (ok: bool)
    ensures ok <==> SoundDag(steps)
  {
    var ids := seq(|steps|, i requires 0 <= i < |steps| => steps[i].id);
    DistinctCount(ids);
    var idSet := Members(ids);
    if |idSet| != |ids| {
      ghost var i, j :| 0 <= i < j < |ids| && ids[i] == ids[j];
      assert steps[i].id == steps[j].id;
      return false;
    }
    assert UniqueIds(steps) by {
      forall i, j | 0 <= i < j < |steps| ensures steps[i].id != steps[j].id {
        assert ids[i] != ids[j];
      }
    }
    var edges: seq<Edge> := [];
    var i := 0;
    while i < |steps|
      invariant i <= |steps|
      invariant forall k, d :: 0 <= k < i && d in steps[k].deps ==> Has(steps, d)
      invariant forall e :: e in edges <==> exists k :: 0 <= k < i && e.0 == steps[k].id && e.1 in steps[k].deps
    {
      var s := steps[i];
      var j := 0;
      while j < |s.deps|
        invariant j <= |s.deps|
        invariant forall k, d :: 0 <= k < i && d in steps[k].deps ==> Has(steps, d)
        invariant forall k :: 0 <= k < j ==> Has(steps, s.deps[k])
        invariant forall e :: e in edges <==>
          (exists k :: 0 <= k < i && e.0 == steps[k].id && e.1 in steps[k].deps)
          || (e.0 == s.id && e.1 in s.deps[..j])
      {
        IdSetHas(steps, ids, s.deps[j]);
        if s.deps[j] !in idSet {
          return false;
        }
        edges := edges + [(s.id, s.deps[j])];
        assert s.deps[..j + 1] == s.deps[..j] + [s.deps[j]];
        j := j + 1;
      }
      assert s.deps[..j] == s.deps;
      i := i + 1;
    }
    assert EdgeSet(edges) == DependencyEdges(steps);
    ok := ValidateNoDependencyCycle(edges);
  }

  lemma IdSetHas(steps: seq<Step>, ids: seq<StepId>, d: StepId)
    requires |ids| == |steps| && forall i :: 0 <= i < |steps| ==> ids[i] == steps[i].id
    ensures d in ids <==> Has(steps, d)
  {
    if d in ids {
      var i :| 0 <= i < |ids| && ids[i] == d;
      assert steps[i].id == d;
    }
    assert Has(steps, d) ==> ids[Find(steps, d)] == d;
  }

  // ---------------------------------------------------------------- promotion

  /** The transitions promotion makes among the first n steps: position and previous status. */
  ghost function Transitions(before: seq<Step>, after: seq<Step>, n: nat): seq<(nat, StepStatus)>
    requires n <= |before| == |after|
  {
    if n == 0 then []
    else if before[n - 1].status == after[n - 1].status then Transitions(before, after, n - 1)
    else Transitions(before, after, n - 1) + [(n - 1, before[n - 1].status)]
  }

  method PromoteReadySteps(before: seq<Step>) returns (steps: seq<Step>, transitions: seq<(nat, StepStatus)>)
    ensures steps == PromoteReady(before)
    ensures transitions == Transitions(before, steps, |steps|)
  {
    var completed := CompletedIds(before);
    steps, transitions := before, [];
    var i := 0;
    while i < |steps|
      invariant i <= |steps| == |before|
      invariant forall k :: 0 <= k < i ==> steps[k] == PromoteReady(before)[k]
      invariant forall k :: i <= k < |steps| ==> steps[k] == before[k]
      invariant transitions == Transitions(before, PromoteReady(before), i)
    {
      if Waiting(steps[i]) {
        var previous := steps[i].status;
        var met := forall d :: d in steps[i].deps ==> d in completed;
        steps := steps[i := steps[i].(status := if met then Ready else Pending)];
        if previous != steps[i].status {
          transitions := transitions + [(i, previous)];
        }
      }
      i := i + 1;
    }
    assert steps == PromoteReady(before);
  }

  function ReadyEvent(steps: seq<Step>, i: nat): seq<Event> {
    if i < |steps| && steps[i].status.Ready? then [StepEvent(steps[i].id, StepReady)] else []
  }

  ghost function ReadyOf(steps: seq<Step>, transitions: seq<(nat, StepStatus)>): seq<Event> {
    if transitions == [] then []
    else
      var n := |transitions| - 1;
      ReadyOf(steps, transitions[..n]) + ReadyEvent(steps, transitions[n].0)
  }

  /** Promotion only moves steps between pending and ready. */
  predicate OnlyPromotes(before: seq<Step>, after: seq<Step>) {
    && |before| == |after|
    && forall i :: 0 <= i < |before| && after[i].status != before[i].status && after[i].status.Ready? ==>
      before[i].status.Pending?
  }

  ghost predicate SameReady(before: seq<Step>, after: seq<Step>, n: nat)
    requires n <= |before| == |after|
  {
    ReadyOf(after, Transitions(before, after, n)) == ReadyEvents(before, after, n)
  }

  lemma {:induction false} ReadyOfTransitions(before: seq<Step>, after: seq<Step>, n: nat)
    requires OnlyPromotes(before, after) && n <= |before|
    ensures SameReady(before, after, n)
  {
    if n > 0 {
      ReadyOfTransitions(before, after, n - 1);
      ReadyOfExtends(before, after, n - 1, Transitions(before, after, n - 1), ReadyEvents(before, after, n - 1));
    }
  }

  lemma ReadyOfExtends(before: seq<Step>, after: seq<Step>, i: nat, ts: seq<(nat, StepStatus)>, events: seq<Event>)
    requires OnlyPromotes(before, after) && i < |before|
    requires ts == Transitions(before, after, i) && events == ReadyEvents(before, after, i)
      && SameReady(before, after, i)
    ensures SameReady(before, after, i + 1)
  {
    if before[i].status != after[i].status {
      ReadyOfLast(after, ts, (i, before[i].status));
    }
  }

  lemma ReadyOfLast(steps: seq<Step>, ts: seq<(nat, StepStatus)>, x: (nat, StepStatus))
    ensures ReadyOf(steps, ts + [x]) == ReadyOf(steps, ts) + ReadyEvent(steps, x.0)
  {
    assert (ts + [x])[..|ts|] == ts;
  }

  lemma {:induction false} TransitionsInRange(before: seq<Step>, after: seq<Step>, n: nat)
    requires n <= |before| == |after|
    ensures forall x :: x in Transitions(before, after, n) ==> x.0 < n
  {
    if n > 0 {
      TransitionsInRange(before, after, n - 1);
    }
  }

  method ReadyEventEntries(ghost before: seq<Step>, steps: seq<Step>, transitions: seq<(nat, StepStatus)>)
    returns (entries: seq<Event>)
    requires steps == PromoteReady(before) && transitions == Transitions(before, steps, |steps|)
    ensures entries == ReadyEvents(before, steps, |steps|)
  {
    ReadyOfTransitions(before, steps, |before|);
    TransitionsInRange(before, steps, |before|);
    entries := [];
    var i := 0;
    while i < |transitions|
      invariant i <= |transitions|
      invariant entries == ReadyOf(steps, transitions[..i])
    {
      assert transitions[..i + 1][..i] == transitions[..i];
      assert transitions[i] in transitions;
      if steps[transitions[i].0].status.Ready? {
        entries := entries + [StepEvent(steps[transitions[i].0].id, StepReady)];
      }
      i := i + 1;
    }
    assert transitions[..i] == transitions;
  }

  /** `promote_ready` then `promote_running`, with the entries that report them. */
  method PromoteTask(before: Task) returns (next: Task, entries: seq<Event>)
    ensures next == Promote(before)
    ensures entries == PromotionEvents(before, next)
  {
    var steps, transitions := PromoteReadySteps(before.steps);
    next := before.(steps := steps);
    var wasPending := false;
    if next.status.TaskPending? && AnyActive(steps) {
      wasPending := true;
      next := next.(status := TaskRunning);
    }
    entries := ReadyEventEntries(before.steps, steps, transitions);
    if wasPending {
      entries := entries + [TaskStarted];
    } else {
      assert entries == entries + [];
    }
  }

  // ---------------------------------------------------------------- the draft a batch edits

  /** The deep copy that an update batch edits in place. */
  class TaskDraft {
    var task: Task

    constructor (task: Task)
      ensures this.task == task
    {
      this.task := task;
    }

    method SetStep(i: nat, s: Step)
      requires i < |task.steps|
      modifies this
      ensures task == old(task).(steps := old(task).steps[i := s])
    {
      task := task.(steps := task.steps[i := s]);
    }

    /** `apply_operation`. */
    method Apply(op: Operation) returns (ok: bool)
      modifies this
      ensures ok == ApplyOperation(old(task), op).Some?
      ensures task == if ok then ApplyOperation(old(task), op).value else old(task)
    {
      match op
      case EditTask(status) =>
        if status.None? {
          return true;
        }
        if status.value.TaskBlocked? {
          task := task.(status := TaskBlocked);
        } else if status.value.TaskPending? && task.status.TaskBlocked? {
          task := task.(status := TaskPending);
        } else {
          return false;
        }
        return true;
      case AddStep(raw) =>
        var i := FindStep(task.steps, raw.id);
        if i < |task.steps| {
          return false;
        }
        task := task.(steps := task.steps + [StepFromInput(raw)]);
        return true;
      case UnknownOperation =>
        return false;
      case _ =>
        var i := FindStep(task.steps, op.id);
        if i == |task.steps| {
          return false;
        }
        ok := ApplyAt(op, i);
    }

    method ApplyAt(op: Operation, i: nat) returns (ok: bool)
      requires !op.EditTask? && !op.AddStep? && !op.UnknownOperation?
      requires i < |task.steps|
      modifies this
      ensures ok == ApplyToStep(old(task), op, i).Some?
      ensures task == if ok then ApplyToStep(old(task), op, i).value else old(task)
    {
      var s := task.steps[i];
      match op {
        case EditStep(_, required, deps) =>
          if required.Some? {
            s := s.(required := required.value);
          }
          if deps.Some? {
            s := s.(deps := deps.value);
          }
          SetStep(i, s);
        case DeleteStep(id) =>
          if !(Waiting(s) || s.status.Cancelled?) {
            return false;
          }
          if exists j :: 0 <= j < |task.steps| && id in task.steps[j].deps {
            return false;
          }
          task := task.(steps := WithoutStep(task.steps, id));
        case AddDependency(_, dep) =>
          var j := FindStep(task.steps, dep);
          if j == |task.steps| {
            return false;
          }
          if dep !in s.deps {
            SetStep(i, s.(deps := s.deps + [dep]));
          }
        case RemoveDependency(_, dep) =>
          SetStep(i, s.(deps := Without(s.deps, dep)));
        case CancelStep(_) =>
          if Live(s) {
            return false;
          }
          SetStep(i, s.(status := Cancelled));
        case ReopenStep(_) =>
          if s.status.Cancelled? {
            return false;
          }
          if s.status.Blocked? || s.status.Failed? {
            SetStep(i, s.(status := Pending));
          }
      }
      return true;
    }
  }

  lemma {:induction false} BatchFailsOn(t: Task, ops: seq<Operation>, n: nat)
    requires n <= |ops| && ApplyBatch(t, ops[..n]).None?
    ensures ApplyBatch(t, ops).None?
    decreases |ops|
  {
    if n < |ops| {
      assert ops[..|ops| - 1][..n] == ops[..n];
      BatchFailsOn(t, ops[..|ops| - 1], n);
    } else {
      assert ops[..n] == ops;
    }
  }

  // ---------------------------------------------------------------- the record

  class TaskRecord {
    var task: Task
    var log: seq<Entry>
    var walSeq: nat

    function Snapshot(): Record
      reads this
    {
      Record(task, log, walSeq)
    }

    /** `append_many`: number the events, write them, and only then advance the sequence number. */
    method AppendMany(events: seq<Event>, diskOk: bool) returns (ok: bool)
      modifies this`log, this`walSeq
      ensures ok <==> events == [] || diskOk
      ensures log == if ok then old(log) + Lines(events, old(walSeq)) else old(log)
      ensures walSeq == if ok then old(walSeq) + |events| else old(walSeq)
    {
      if events == [] {
        assert log == log + Lines([], walSeq);
        return true;
      }
      var nextSeq := walSeq;
      var lines: seq<Entry> := [];
      var i := 0;
      while i < |events|
        invariant i <= |events|
        invariant nextSeq == walSeq + i
        invariant lines == Lines(events[..i], walSeq)
      {
        nextSeq := nextSeq + 1;
        lines := lines + [Entry(nextSeq, EventId(nextSeq), events[i])];
        i := i + 1;
        assert lines == Lines(events[..i], walSeq);
      }
      assert events[..i] == events;
      if !diskOk {
        return false;
      }
      log := log + lines;
      walSeq := nextSeq;
      return true;
    }

    /** Append, then replace the task. */
    method CommitNext(next: Task, events: seq<Event>, diskOk: bool) returns (ok: bool)
      modifies this
      ensures ok <==> events == [] || diskOk
      ensures Snapshot() == Commit(old(Snapshot()), Accepted(next, events), diskOk)
    {
      ok := AppendMany(events, diskOk);
      if ok {
        task := next;
      }
    }

    /** `create_task`, once the steps have been read; None when they do not validate or the append fails. */
    static method CreateTask(raws: seq<NewStep>, diskOk: bool) returns (r: Option<TaskRecord>)
      ensures r.Some? <==> TaskOperations.CreateTask(raws).Accepted? && diskOk
      ensures r.Some? ==> fresh(r.value) && r.value.Snapshot() == Created(raws)
    {
      var steps := StepsFromInput(raws);
      var valid := ValidateSteps(steps);
      if !valid {
        return None;
      }
      var before := Task(TaskPending, Roots(steps), steps);
      var next, promoted := PromoteTask(before);
      var record := new TaskRecord.Empty(next);
      var ok := record.AppendMany([TaskCreated(next)] + promoted, diskOk);
      if !ok {
        return None;
      }
      return Some(record);
    }

    constructor Empty(task: Task)
      ensures Snapshot() == Record(task, [], 0)
    {
      this.task, log, walSeq := task, [], 0;
    }

    constructor Resumed(task: Task, log: seq<Entry>, walSeq: nat)
      ensures Snapshot() == Record(task, log, walSeq)
    {
      this.task, this.log, this.walSeq := task, log, walSeq;
    }

    method UpdateTask(ops: seq<Operation>, diskOk: bool) returns (ok: bool)
      modifies this
      ensures Snapshot() == Commit(old(Snapshot()), Perform(old(task), Update(ops)), diskOk)
      ensures ok <==> Perform(old(task), Update(ops)).Accepted? && diskOk
    {
      if TerminalTask(task) {
        return false;
      }
      var fine, edited, reopened, taskReopened := EditBatch(task, ops);
      if !fine {
        return false;
      }
      var valid := ValidateSteps(edited.steps);
      if !valid {
        return false;
      }
      var promotedTask, promoted := PromoteTask(edited);
      var next := promotedTask.(roots := Roots(promotedTask.steps));
      var events := [TaskUpdated(next)] + ReopenEvents(reopened);
      if taskReopened {
        events := events + [TaskReopened];
      }
      events := events + promoted;
      assert events == BatchEvents(Batch(edited, reopened, taskReopened));
      ok := CommitNext(next, events, diskOk);
    }

    method ClaimStep(id: StepId, owner: Owner, lease: Time, diskOk: bool) returns (ok: bool)
      modifies this
      ensures Snapshot() == Commit(old(Snapshot()), Perform(old(task), Claim(id, owner, lease)), diskOk)
      ensures ok <==> Perform(old(task), Claim(id, owner, lease)).Accepted? && diskOk
    {
      if TerminalTask(task) || task.status.TaskBlocked? {
        return false;
      }
      var i := FindStep(task.steps, id);
      if i == |task.steps| || HoldsLive(task.steps, owner.run) || !task.steps[i].status.Ready? {
        return false;
      }
      var step := task.steps[i];
      step := step.(status := Claimed);
      step := step.(owner := Some(owner));
      step := step.(lease := Some(lease));
      ok := CommitNext(task.(steps := task.steps[i := step]), [StepEvent(id, StepClaimed(owner, lease))], diskOk);
    }

    method UpdateStep(id: StepId, request: Option<StepStatus>, lease: Time, diskOk: bool) returns (ok: bool)
      modifies this
      ensures Snapshot() == Commit(old(Snapshot()), Perform(old(task), Report(id, request, lease)), diskOk)
      ensures ok <==> Perform(old(task), Report(id, request, lease)).Accepted? && diskOk
    {
      if TerminalTask(task) {
        return false;
      }
      var i := FindStep(task.steps, id);
      if i == |task.steps| {
        return false;
      }
      var step := task.steps[i];
      var change := StepUpdated;
      if request.Some? {
        match request.value {
          case Running =>
            step := step.(status := Running, lease := Some(lease));
            change := StepStarted(Some(lease));
          case Blocked =>
            step := step.(status := Blocked, owner := None, lease := None);
            change := StepBlocked;
          case Completed =>
            step := step.(status := Completed, lease := None);
            change := StepCompleted;
          case Failed =>
            step := step.(status := Failed, lease := None);
            change := StepFailed;
          case Cancelled =>
            if Live(step) {
              return false;
            }
            step := step.(status := Cancelled, lease := None);
            change := StepCancelled;
          case _ =>
            return false;
        }
      }
      assert Requested(task.steps[i], request, lease) == Some((step, change));
      var next, promoted := PromoteTask(task.(steps := task.steps[i := step]));
      ok := CommitNext(next, [StepEvent(id, change)] + promoted, diskOk);
    }

    method CompleteTask(diskOk: bool) returns (ok: bool)
      modifies this
      ensures Snapshot() == Commit(old(Snapshot()), Perform(old(task), Complete), diskOk)
      ensures ok <==> Perform(old(task), Complete).Accepted? && diskOk
    {
      if TerminalTask(task) {
        return false;
      }
      var i := 0;
      while i < |task.steps|
        invariant i <= |task.steps| && unchanged(this)
        invariant forall k :: 0 <= k < i ==>
          !Live(task.steps[k]) && (task.steps[k].required ==> task.steps[k].status.Completed?)
      {
        if Live(task.steps[i]) || (task.steps[i].required && !task.steps[i].status.Completed?) {
          return false;
        }
        i := i + 1;
      }
      var steps, ids, entries := CancelOptional(task.steps);
      ok := CommitNext(task.(status := TaskCompleted, steps := steps),
                       entries + [TaskFinished(TaskCompleted, ids)], diskOk);
    }

    /** `fail_task` and `cancel_task`; also returns the runs whose claims were taken away. */
    method TerminateTask(cancel: bool, diskOk: bool) returns (ok: bool, terminated: set<nat>)
      modifies this
      ensures Snapshot() == Commit(old(Snapshot()), Perform(old(task), Terminate(cancel)), diskOk)
      ensures ok <==> Perform(old(task), Terminate(cancel)).Accepted? && diskOk
      ensures ok ==> forall run :: run in terminated <==>
        exists k :: 0 <= k < |old(task).steps| && !TerminalStep(old(task).steps[k]) && OwnedBy(old(task).steps[k], run)
    {
      terminated := {};
      if TerminalTask(task) {
        return false, terminated;
      }
      var status := if cancel then TaskCancelled else TaskFailed;
      var steps, ids, entries;
      steps, ids, entries, terminated :=
        EndSteps(task.steps, if cancel then Cancelled else Failed, if cancel then StepCancelled else StepFailed);
      ok := CommitNext(task.(status := status, steps := steps), entries + [TaskFinished(status, ids)], diskOk);
    }

    /** `_reconcile_leases` at the time `now`. */
    method ReconcileLeases(now: Time, diskOk: bool) returns (ok: bool)
      modifies this
      ensures Snapshot() == Commit(old(Snapshot()), Perform(old(task), Reconcile(now)), diskOk)
      ensures ok <==> TerminalTask(old(task)) || ExpiredIds(old(task).steps, now, |old(task).steps|) == [] || diskOk
    {
      if TerminalTask(task) {
        assert log == log + Lines([], walSeq);
        return true;
      }
      var steps, ids, entries := ExpireSteps(task.steps, now);
      if ids == [] {
        assert log == log + Lines([], walSeq);
        return true;
      }
      var next, promoted := PromoteTask(task.(steps := steps));
      ok := CommitNext(next, entries + promoted, diskOk);
    }

    method FailUnclosedWorkerStep(run: nat, diskOk: bool) returns (ok: bool)
      modifies this
      ensures Snapshot() == Commit(old(Snapshot()), Perform(old(task), LoseWorker(run)), diskOk)
      ensures ok <==> TerminalTask(old(task)) || FirstHeld(old(task).steps, run) == |old(task).steps| || diskOk
    {
      assert log == log + Lines([], walSeq);
      if TerminalTask(task) {
        return true;
      }
      var i := 0;
      while i < |task.steps|
        invariant i <= |task.steps| && unchanged(this)
        invariant forall k :: 0 <= k < i ==> !(Live(task.steps[k]) && OwnedBy(task.steps[k], run))
      {
        if Live(task.steps[i]) && OwnedBy(task.steps[i], run) {
          var step := task.steps[i].(status := Failed, owner := None, lease := None);
          ok := CommitNext(task.(steps := task.steps[i := step]), [StepEvent(step.id, StepFailed)], diskOk);
          return;
        }
        i := i + 1;
      }
      return true;
    }
  }

  /** The second loop of `complete_task`. */
  method CancelOptional(before: seq<Step>) returns (steps: seq<Step>, ids: seq<StepId>, entries: seq<Event>)
    ensures steps == CancelLeftovers(before)
    ensures ids == LeftoverIds(before, |before|) && entries == StepEvents(ids, StepCancelled)
  {
    steps, ids, entries := before, [], [];
    var i := 0;
    while i < |steps|
      invariant i <= |steps| == |before|
      invariant forall k :: 0 <= k < i ==> steps[k] == CancelLeftovers(before)[k]
      invariant forall k :: i <= k < |steps| ==> steps[k] == before[k]
      invariant ids == LeftoverIds(before, i) && entries == StepEvents(ids, StepCancelled)
    {
      if !steps[i].required && !TerminalStep(steps[i]) {
        steps := steps[i := steps[i].(status := Cancelled)];
        StepEventsNext(ids, steps[i].id, StepCancelled);
        ids := ids + [steps[i].id];
        entries := entries + [StepEvent(steps[i].id, StepCancelled)];
      }
      i := i + 1;
    }
  }

  lemma StepEventsNext(ids: seq<StepId>, id: StepId, c: Change)
    ensures StepEvents(ids + [id], c) == StepEvents(ids, c) + [StepEvent(id, c)]
  {
  }

  /** The loop of `_terminate_task`. */
  method EndSteps(before: seq<Step>, status: StepStatus, change: Change)
    returns (steps: seq<Step>, ids: seq<StepId>, entries: seq<Event>, runs: set<nat>)
    ensures steps == EndAll(before, status)
    ensures ids == OpenIds(before, |before|) && entries == StepEvents(ids, change)
    ensures forall run :: run in runs <==>
      exists k :: 0 <= k < |before| && !TerminalStep(before[k]) && OwnedBy(before[k], run)
  {
    steps, ids, entries, runs := before, [], [], {};
    var i := 0;
    while i < |steps|
      invariant i <= |steps| == |before|
      invariant forall k :: 0 <= k < i ==> steps[k] == EndAll(before, status)[k]
      invariant forall k :: i <= k < |steps| ==> steps[k] == before[k]
      invariant ids == OpenIds(before, i) && entries == StepEvents(ids, change)
      invariant forall run :: run in runs <==>
        exists k :: 0 <= k < i && !TerminalStep(before[k]) && OwnedBy(before[k], run)
    {
      if !TerminalStep(steps[i]) {
        if steps[i].owner.Some? {
          runs := runs + {steps[i].owner.value.run};
        }
        steps := steps[i := steps[i].(status := status, owner := None, lease := None)];
        StepEventsNext(ids, steps[i].id, change);
        ids := ids + [steps[i].id];
        entries := entries + [StepEvent(steps[i].id, change)];
      }
      i := i + 1;
    }
  }

  /** The first loop of `_reconcile_leases`: the positions of the expired steps. */
  method FindExpired(steps: seq<Step>, now: Time) returns (expired: seq<nat>)
    ensures expired == ExpiredPositions(steps, now, |steps|)
  {
    expired := [];
    var i := 0;
    while i < |steps|
      invariant i <= |steps|
      invariant expired == ExpiredPositions(steps, now, i)
    {
      if Expired(steps[i], now) {
        expired := expired + [i];
      }
      i := i + 1;
    }
  }

  /** The second loop of `_reconcile_leases`: free each expired step and log it. */
  method FreeSteps(before: seq<Step>, now: Time, expired: seq<nat>)
    returns (steps: seq<Step>, ids: seq<StepId>, entries: seq<Event>)
    requires forall i :: 0 <= i < |expired| ==> expired[i] < |before| && Expired(before[expired[i]], now)
    requires forall i, j :: 0 <= i < j < |expired| ==> expired[i] < expired[j]
    ensures FreedAt(before, now, expired, steps, ids, entries)
  {
    steps, ids, entries := before, [], [];
    var j := 0;
    while j < |expired|
      invariant j <= |expired|
      invariant FreedAt(before, now, expired[..j], steps, ids, entries)
    {
      var k := expired[j];
      assert expired[..j + 1] == expired[..j] + [k];
      FreedAtNext(before, now, expired[..j], k, steps, ids, entries);
      steps := steps[k := steps[k].(status := Pending, owner := None, lease := None)];
      ids := ids + [steps[k].id];
      entries := entries + [StepEvent(steps[k].id, StepLeaseExpired)];
      j := j + 1;
    }
    assert expired[..j] == expired;
  }

  method ExpireSteps(before: seq<Step>, now: Time) returns (steps: seq<Step>, ids: seq<StepId>, entries: seq<Event>)
    ensures steps == FreeExpired(before, now)
    ensures ids == ExpiredIds(before, now, |before|) && entries == StepEvents(ids, StepLeaseExpired)
  {
    var expired := FindExpired(before, now);
    ExpiredPositionsExact(before, now, |before|);
    assert forall i :: 0 <= i < |expired| ==> expired[i] in expired;
    steps, ids, entries := FreeSteps(before, now, expired);
    ExpiredPositionsIds(before, now, |before|);
    assert steps == FreeExpired(before, now);
  }

  /** The loop state once the positions in `done` have been freed and logged. */
  predicate FreedAt(before: seq<Step>, now: Time, done: seq<nat>, steps: seq<Step>, ids: seq<StepId>,
                    entries: seq<Event>)
  {
    && |steps| == |before|
    && (forall k :: 0 <= k < |before| ==> steps[k] == if k in done then Freed(before[k], now) else before[k])
    && InRange(done, |before|)
    && ids == IdsAt(before, done)
    && entries == StepEvents(ids, StepLeaseExpired)
  }

  lemma FreedAtNext(before: seq<Step>, now: Time, done: seq<nat>, k: nat, steps: seq<Step>, ids: seq<StepId>,
                    entries: seq<Event>)
    requires FreedAt(before, now, done, steps, ids, entries)
    requires k < |before| && k !in done && Expired(before[k], now)
    ensures var freed := steps[k].(status := Pending, owner := None, lease := None);
      FreedAt(before, now, done + [k], steps[k := freed], ids + [freed.id],
              entries + [StepEvent(freed.id, StepLeaseExpired)])
  {
    IdsAtNext(before, done, k);
    StepEventsNext(ids, before[k].id, StepLeaseExpired);
  }

  /** Positions of the expired steps among the first n. */
  function ExpiredPositions(steps: seq<Step>, now: Time, n: nat): seq<nat>
    requires n <= |steps|
  {
    if n == 0 then [] else ExpiredPositions(steps, now, n - 1) + (if Expired(steps[n - 1], now) then [n - 1] else [])
  }

  predicate InRange(positions: seq<nat>, n: nat) {
    forall i :: 0 <= i < |positions| ==> positions[i] < n
  }

  function IdsAt(steps: seq<Step>, positions: seq<nat>): seq<StepId>
    requires InRange(positions, |steps|)
  {
    if positions == [] then []
    else
      var n := |positions| - 1;
      IdsAt(steps, positions[..n]) + [steps[positions[n]].id]
  }

  lemma IdsAtNext(steps: seq<Step>, positions: seq<nat>, k: nat)
    requires InRange(positions, |steps|) && k < |steps|
    ensures IdsAt(steps, positions + [k]) == IdsAt(steps, positions) + [steps[k].id]
  {
    assert (positions + [k])[..|positions|] == positions;
  }

  lemma {:induction false} ExpiredPositionsExact(steps: seq<Step>, now: Time, n: nat)
    requires n <= |steps|
    ensures forall k :: k in ExpiredPositions(steps, now, n) <==> 0 <= k < n && Expired(steps[k], now)
    ensures forall i, j :: 0 <= i < j < |ExpiredPositions(steps, now, n)| ==>
      ExpiredPositions(steps, now, n)[i] < ExpiredPositions(steps, now, n)[j]
  {
    if n > 0 {
      ExpiredPositionsExact(steps, now, n - 1);
      var before := ExpiredPositions(steps, now, n - 1);
      assert forall i :: 0 <= i < |before| ==> before[i] in before;
    }
  }

  lemma {:induction false} ExpiredPositionsIds(steps: seq<Step>, now: Time, n: nat)
    requires n <= |steps|
    ensures InRange(ExpiredPositions(steps, now, n), |steps|)
    ensures IdsAt(steps, ExpiredPositions(steps, now, n)) == ExpiredIds(steps, now, n)
  {
    if n > 0 {
      ExpiredPositionsIds(steps, now, n - 1);
      var before := ExpiredPositions(steps, now, n - 1);
      if Expired(steps[n - 1], now) {
        IdsAtNext(steps, before, n - 1);
      } else {
        assert before + [] == before;
      }
    }
  }

  /** What a reopening records: the step, if it was blocked or failed before the batch. */
  method ReopeningOf(original: Task, op: Operation) returns (known: bool, record: seq<StepId>)
    ensures known <==> (op.ReopenStep? ==> Has(original.steps, op.id))
    ensures known ==> record == ReopenRecord(original, op)
  {
    known, record := true, [];
    if op.ReopenStep? {
      var k := FindStep(original.steps, op.id);
      known := k < |original.steps|;
      if known && (original.steps[k].status.Blocked? || original.steps[k].status.Failed?) {
        record := [op.id];
      }
    }
  }

  /** After i operations the draft and the records are as the batch function has them. */
  ghost predicate EditedSoFar(original: Task, ops: seq<Operation>, i: nat, b: Batch)
    requires i <= |ops|
  {
    ApplyBatch(original, ops[..i]) == Some(b)
  }

  lemma BatchGoesOn(original: Task, ops: seq<Operation>, i: nat, b: Batch, next: Batch)
    requires i < |ops| && EditedSoFar(original, ops, i, b)
    requires (ops[i].ReopenStep? ==> Has(original.steps, ops[i].id))
      && ApplyOperation(b.task, ops[i]) == Some(next.task)
    requires next.reopened == b.reopened + ReopenRecord(original, ops[i])
    requires next.taskReopened
      == (b.taskReopened || (ops[i] == EditTask(Some(TaskPending)) && b.task.status.TaskBlocked?))
    ensures EditedSoFar(original, ops, i + 1, next)
  {
    assert ops[..i + 1][..i] == ops[..i] && ops[..i + 1][i] == ops[i];
  }

  lemma BatchStops(original: Task, ops: seq<Operation>, i: nat, b: Batch)
    requires i < |ops| && EditedSoFar(original, ops, i, b)
    requires (ops[i].ReopenStep? && !Has(original.steps, ops[i].id)) || ApplyOperation(b.task, ops[i]).None?
    ensures ApplyBatch(original, ops).None?
  {
    assert ops[..i + 1][..i] == ops[..i] && ops[..i + 1][i] == ops[i];
    BatchFailsOn(original, ops, i + 1);
  }

  /** The loop of `update_task` over a private draft: the edited task and the reopenings recorded on the way. */
  method EditBatch(original: Task, ops: seq<Operation>)
    returns (ok: bool, edited: Task, reopened: seq<StepId>, taskReopened: bool)
    ensures ok <==> ApplyBatch(original, ops).Some?
    ensures ok ==> ApplyBatch(original, ops) == Some(Batch(edited, reopened, taskReopened))
  {
    var draft := new TaskDraft(original);
    edited, reopened, taskReopened := original, [], false;
    var i := 0;
    while i < |ops|
      invariant i <= |ops| && fresh(draft)
      invariant EditedSoFar(original, ops, i, Batch(draft.task, reopened, taskReopened))
    {
      var op := ops[i];
      ghost var b := Batch(draft.task, reopened, taskReopened);
      var known, record := ReopeningOf(original, op);
      if !known {
        BatchStops(original, ops, i, b);
        return false, edited, reopened, taskReopened;
      }
      if op == EditTask(Some(TaskPending)) && draft.task.status.TaskBlocked? {
        taskReopened := true;
      }
      reopened := reopened + record;
      var fine := draft.Apply(op);
      if !fine {
        BatchStops(original, ops, i, b);
        return false, edited, reopened, taskReopened;
      }
      BatchGoesOn(original, ops, i, b, Batch(draft.task, reopened, taskReopened));
      i := i + 1;
    }
    assert ops[..i] == ops;
    return true, draft.task, reopened, taskReopened;
  }
}
