/**
  Recovery as the program does it: one mutable task, each event assigning its fields in place, and a
  loop over the log that also finds the sequence number to resume from.
 */
module TaskRecovery {
  import opened Wrappers
  import opened TaskModel
  import opened TaskReplay
  import opened TaskRuns
  import opened TaskService

  class Replayer {
    var task: Task

    constructor (task: Task)
      ensures this.task == task
    {
      this.task := task;
    }

    method Promote()
      modifies this
      ensures task == TaskModel.Promote(old(task))
    {
      var next, _ := PromoteTask(task);
      task := next;
    }

    /** `replay_task_event`; false is the missing-step exception. */
    method Replay(e: Event) returns (ok: bool)
      modifies this
      ensures ok == ReplayEvent(old(task), e).Rebuilt?
      ensures ok ==> task == ReplayEvent(old(task), e).task
    {
      match e {
        case TaskCreated(created) =>
          task := created.(roots := Roots(created.steps));
        case TaskUpdated(summary) =>
          task := summary;
        case TaskStarted =>
          task := task.(status := TaskRunning);
        case TaskReopened =>
          task := task.(status := TaskPending);
          Promote();
        case TaskFinished(status, settled) =>
          task := task.(status := status);
          ok := Settle(SettledStatus(status), settled);
          return;
        case StepEvent(id, change) =>
          var i := FindStep(task.steps, id);
          if i == |task.steps| {
            return false;
          }
          var step := Assign(task.steps[i], change);
          task := task.(steps := task.steps[i := step]);
          Promote();
      }
      return true;
    }

    /** The loop over the listed steps of a terminating event. */
    method Settle(status: StepStatus, ids: seq<StepId>) returns (ok: bool)
      modifies this
      ensures ok == SettleListed(old(task).steps, status, ids).Some?
      ensures ok ==> task == old(task).(steps := SettleListed(old(task).steps, status, ids).value)
    {
      var n := 0;
      while n < |ids|
        invariant n <= |ids|
        invariant SettleListed(old(task).steps, status, ids[..n]) == Some(task.steps)
        invariant task == old(task).(steps := task.steps)
      {
        var i := FindStep(task.steps, ids[n]);
        assert ids[..n + 1][..n] == ids[..n] && ids[..n + 1][n] == ids[n];
        if i == |task.steps| {
          SettleFailsOn(old(task).steps, status, ids, n + 1);
          return false;
        }
        task := task.(steps := task.steps[i := task.steps[i].(status := status, owner := None, lease := None)]);
        n := n + 1;
      }
      assert ids[..n] == ids;
      return true;
    }
  }

  lemma {:induction false} SettleFailsOn(steps: seq<Step>, status: StepStatus, ids: seq<StepId>, n: nat)
    requires n <= |ids| && SettleListed(steps, status, ids[..n]).None?
    ensures SettleListed(steps, status, ids).None?
    decreases |ids|
  {
    if n < |ids| {
      assert ids[..|ids| - 1][..n] == ids[..n];
      SettleFailsOn(steps, status, ids[..|ids| - 1], n);
    } else {
      assert ids[..n] == ids;
    }
  }

  /** The assignments of one step event, in the order the replay branch makes them. */
  method Assign(before: Step, change: Change) returns (s: Step)
    ensures s == ApplyChange(before, change)
  {
    s := before;
    match change {
      case StepClaimed(owner, lease) =>
        s := s.(status := Claimed);
        s := s.(owner := Some(owner));
        s := s.(lease := Some(lease));
      case StepStarted(renewed) =>
        s := s.(status := Running);
        if renewed.Some? {
          s := s.(lease := renewed);
        }
      case StepUpdated =>
      case StepReady =>
        s := s.(status := Ready);
      case StepBlocked =>
        s := s.(status := Blocked);
        s := s.(owner := None);
        s := s.(lease := None);
      case StepCompleted =>
        s := s.(status := Completed);
        s := s.(lease := None);
      case StepFailed =>
        s := s.(status := Failed);
        s := s.(lease := None);
      case StepCancelled =>
        s := s.(status := Cancelled);
        s := s.(lease := None);
      case StepReopened =>
        s := s.(status := Pending);
      case StepLeaseExpired =>
        s := s.(status := Pending);
        s := s.(owner := None);
        s := s.(lease := None);
    }
  }

  lemma {:induction false} BrokenStays(r: Replayed, events: seq<Event>, n: nat)
    requires n <= |events| && ReplayFrom(r, events[..n]).Broken?
    ensures ReplayFrom(r, events).Broken?
    decreases |events|
  {
    if n < |events| {
      assert events[..|events| - 1][..n] == events[..n];
      BrokenStays(r, events[..|events| - 1], n);
    } else {
      assert events[..n] == events;
    }
  }

  /** `replay_wal`: the record registered for a log, or none when the log cannot be replayed or holds no task. */
  method ReplayWal(log: seq<Entry>) returns (r: Option<TaskRecord>)
    ensures r.Some? <==> Recover(EventsOf(log)).Rebuilt?
    ensures r.Some? ==> fresh(r.value) && r.value.Snapshot() == Record(Recover(EventsOf(log)).task, log, MaxSeq(log))
  {
    ghost var events := EventsOf(log);
    var replayer: Replayer? := null;
    var walSeq := 0;
    var i := 0;
    while i < |log|
      invariant i <= |log| && walSeq == MaxSeq(log[..i])
      invariant replayer != null ==> fresh(replayer)
      invariant ReplayLines(events[..i]) == if replayer == null then NoTask else Rebuilt(replayer.task)
    {
      var line := log[i];
      assert log[..i + 1][..i] == log[..i] && log[..i + 1][i] == line;
      assert events[..i + 1][..i] == events[..i] && events[..i + 1][i] == line.event;
      if line.walSeq > walSeq {
        walSeq := line.walSeq;
      }
      if replayer != null {
        var ok := replayer.Replay(line.event);
        if !ok {
          BrokenStays(NoTask, events, i + 1);
          return None;
        }
      } else if line.event.TaskCreated? {
        replayer := new Replayer(line.event.task.(roots := Roots(line.event.task.steps)));
      }
      i := i + 1;
    }
    assert log[..i] == log && events[..i] == events;
    if replayer == null {
      return None;
    }
    var record := new TaskRecord.Resumed(replayer.task.(roots := Roots(replayer.task.steps)), log, walSeq);
    return Some(record);
  }
}
