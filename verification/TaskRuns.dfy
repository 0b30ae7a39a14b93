/**
  Whole runs of the service over its log: calls whose append may fail, and restarts on any part of the log.
 */
module TaskRuns {
  import opened Wrappers
  import opened Text
  import opened TaskModel
  import opened TaskReplay
  import opened TaskOperations
  import opened TaskSafety
  import opened TaskBatches

  // ---------------------------------------------------------------- the record

  /** One line of the log. */
  datatype Entry = Entry(walSeq: nat, eventId: string, event: Event)

  datatype Record = Record(task: Task, log: seq<Entry>, walSeq: nat)

  function EventId(n: nat): string { "task_evt_" + Decimal(n) }

  lemma EventIdInjective(m: nat, n: nat)
    requires EventId(m) == EventId(n)
    ensures m == n
  {
    assert EventId(m)[9..] == Decimal(m) && EventId(n)[9..] == Decimal(n);
    DecimalInjective(m, n);
  }

  /** The lines `append_many` writes after line `from`. */
  function Lines(events: seq<Event>, from: nat): seq<Entry> {
    seq(|events|, i requires 0 <= i < |events| => Entry(from + i + 1, EventId(from + i + 1), events[i]))
  }

  function EventsOf(log: seq<Entry>): seq<Event> {
    seq(|log|, i requires 0 <= i < |log| => log[i].event)
  }

  /** The largest sequence number in the log: what `replay_wal` resumes from. */
  function MaxSeq(log: seq<Entry>): nat {
    if log == [] then 0
    else
      var before := MaxSeq(log[..|log| - 1]);
      if log[|log| - 1].walSeq > before then log[|log| - 1].walSeq else before
  }

  /** Log first, then commit: a rejected call or a failed append changes nothing. */
  function Commit(r: Record, o: Outcome, appended: bool): Record {
    if o.Rejected? || (o.events != [] && !appended) then r
    else Record(o.task, r.log + Lines(o.events, r.walSeq), r.walSeq + |o.events|)
  }

  // ---------------------------------------------------------------- calls and actions

  datatype Call =
    | Update(ops: seq<Operation>)
    | Claim(id: StepId, owner: Owner, lease: Time)
    | Report(id: StepId, request: Option<StepStatus>, lease: Time)
    | Complete
    | Terminate(cancel: bool)
    | Reconcile(now: Time)
    | LoseWorker(run: nat)

  ghost function Perform(t: Task, c: Call): Outcome {
    match c
    case Update(ops) => UpdateTask(t, ops)
    case Claim(id, owner, lease) => ClaimStep(t, id, owner, lease)
    case Report(id, request, lease) => UpdateStep(t, id, request, lease)
    case Complete => CompleteTask(t)
    case Terminate(cancel) => TerminateTask(t, cancel)
    case Reconcile(now) => ReconcileLeases(t, now)
    case LoseWorker(run) => FailUnclosed(t, run)
  }

  /** A call, with whether its append reached the disk; or a restart on the first `kept` lines. */
  datatype Action = Do(call: Call, appended: bool) | Restart(kept: nat)

  /** Whether the first `kept` lines rebuild a task. */
  predicate Reloads(r: Record, kept: nat) {
    kept <= |r.log| && Recover(EventsOf(r.log[..kept])).Rebuilt?
  }

  /** A restart registers the rebuilt task; where there is none the record is left as it was. */
  function Reload(r: Record, kept: nat): Record {
    if Reloads(r, kept) then Record(Recover(EventsOf(r.log[..kept])).task, r.log[..kept], MaxSeq(r.log[..kept])) else r
  }

  ghost function Act(r: Record, a: Action): Record {
    match a
    case Do(c, appended) => Commit(r, Perform(r.task, c), appended)
    case Restart(kept) => Reload(r, kept)
  }

  ghost function Run(r: Record, actions: seq<Action>): Record {
    if actions == [] then r else Act(Run(r, actions[..|actions| - 1]), actions[|actions| - 1])
  }

  // ---------------------------------------------------------------- disciplines

  /** The owner discipline: a step is set running only while it is live. */
  ghost predicate OwnersKept(t: Task, c: Call) {
    c.Report? && c.request == Some(Running) && Has(t.steps, c.id) ==> Live(t.steps[Find(t.steps, c.id)])
  }

  /** A call whose events rebuild what it did. */
  ghost predicate Survivable(t: Task, c: Call) {
    c.Update? ==> ReopensSurvive(t, c.ops)
  }

  // ---------------------------------------------------------------- the invariant

  /** Sequence numbers are exactly 1..n, and so are the event ids. */
  ghost predicate Numbered(r: Record) {
    && r.walSeq == |r.log|
    && forall i :: 0 <= i < |r.log| ==> r.log[i].walSeq == i + 1 && r.log[i].eventId == EventId(i + 1)
  }

  /** Every non-empty prefix of the log replays to a good task. */
  ghost predicate CrashSafe(events: seq<Event>, owners: bool) {
    forall k :: 0 < k <= |events| ==> ReplayLines(events[..k]).Rebuilt? && Good(ReplayLines(events[..k]).task, owners)
  }

  /** Replaying the whole log gives a task that agrees with the one in memory. */
  ghost predicate Recoverable(t: Task, events: seq<Event>, owners: bool) {
    ReplayLines(events).Rebuilt? && Agrees(t, ReplayLines(events).task, owners)
  }

  /** The memory is good, and the log rebuilds good tasks at every prefix and the memory at its end. */
  ghost predicate Sound(r: Record, owners: bool) {
    && r.log != []
    && Numbered(r)
    && Good(r.task, owners)
    && CrashSafe(EventsOf(r.log), owners)
    && Recoverable(r.task, EventsOf(r.log), owners)
  }

  lemma EventsOfLines(log: seq<Entry>, events: seq<Event>, from: nat)
    ensures EventsOf(log + Lines(events, from)) == EventsOf(log) + events
  {
  }

  lemma EventsOfPrefix(log: seq<Entry>, kept: nat)
    requires kept <= |log|
    ensures EventsOf(log[..kept]) == EventsOf(log)[..kept]
  {
  }

  lemma {:induction false} MaxSeqNumbered(log: seq<Entry>)
    requires forall i :: 0 <= i < |log| ==> log[i].walSeq == i + 1
    ensures MaxSeq(log) == |log|
  {
    if log != [] {
      MaxSeqNumbered(log[..|log| - 1]);
    }
  }

  /** Appending a batch that tracks keeps the log crash-safe and rebuilds the end of the batch. */
  lemma LogExtends(events: seq<Event>, b: Task, batch: seq<Event>, last: Task, owners: bool)
    requires CrashSafe(events, owners) && ReplayLines(events) == Rebuilt(b)
    requires Tracks(b, batch, last, owners)
    ensures CrashSafe(events + batch, owners)
    ensures ReplayLines(events + batch) == Rebuilt(last)
  {
    TracksReplays(b, batch, last, owners);
    ReplayFromAppend(NoTask, events, batch);
    forall k | 0 < k <= |events + batch|
      ensures ReplayLines((events + batch)[..k]).Rebuilt? && Good(ReplayLines((events + batch)[..k]).task, owners)
    {
      if k <= |events| {
        assert (events + batch)[..k] == events[..k];
      } else {
        assert (events + batch)[..k] == events + batch[..k - |events|];
        ReplayFromAppend(NoTask, events, batch[..k - |events|]);
      }
    }
  }

  lemma PerformFaithful(t: Task, c: Call, owners: bool)
    requires Good(t, owners) && Survivable(t, c) && (owners ==> OwnersKept(t, c))
    ensures Faithful(t, Perform(t, c), owners)
  {
    match c
    case Update(ops) => UpdateFaithful(t, ops, owners);
    case Claim(id, owner, lease) => ClaimFaithful(t, id, owner, lease, owners);
    case Report(id, request, lease) => UpdateStepFaithful(t, id, request, lease, owners);
    case Complete => CompleteFaithful(t, owners);
    case Terminate(cancel) => TerminateFaithful(t, cancel, owners);
    case Reconcile(now) => ReconcileFaithful(t, now, owners);
    case LoseWorker(run) => FailUnclosedFaithful(t, run, owners);
  }

  /** An accepted call leaves a good task, whether or not its events rebuild it. */
  lemma PerformGood(t: Task, c: Call, owners: bool)
    requires Good(t, owners) && (owners ==> OwnersKept(t, c)) && Perform(t, c).Accepted?
    ensures Good(Perform(t, c).task, owners)
  {
    if c.Update? {
      UpdateGood(t, c.ops, owners);
    } else {
      PerformFaithful(t, c, owners);
    }
  }

  /** One committed batch, seen from the log. */
  lemma BatchRecoverable(t: Task, events: seq<Event>, o: Outcome, owners: bool)
    requires CrashSafe(events, owners) && Recoverable(t, events, owners)
    requires o.Accepted? && Faithful(t, o, owners)
    ensures CrashSafe(events + o.events, owners) && Recoverable(o.task, events + o.events, owners)
  {
    var b := ReplayLines(events).task;
    var u :| Tracks(t, o.events, u, owners) && Agrees(u, o.task, owners);
    var end := TracksFromAgreeing(t, b, o.events, u, owners);
    LogExtends(events, b, o.events, end, owners);
    AgreesSymmetric(u, o.task, owners);
    AgreesTransitive(o.task, u, end, owners);
  }

  lemma CommitNumbered(r: Record, o: Outcome, appended: bool)
    requires Numbered(r)
    ensures Numbered(Commit(r, o, appended))
  {
  }

  lemma ReloadNumbered(r: Record, kept: nat)
    requires Numbered(r)
    ensures Numbered(Reload(r, kept))
  {
    if Reloads(r, kept) {
      MaxSeqNumbered(r.log[..kept]);
    }
  }

  lemma CommitSound(r: Record, o: Outcome, appended: bool, owners: bool)
    requires Sound(r, owners) && Faithful(r.task, o, owners)
    ensures Sound(Commit(r, o, appended), owners)
  {
    CommitNumbered(r, o, appended);
    if o.Accepted? && (o.events == [] || appended) {
      EventsOfLines(r.log, o.events, r.walSeq);
      BatchRecoverable(r.task, EventsOf(r.log), o, owners);
    }
  }

  lemma RecoverGood(events: seq<Event>, owners: bool)
    requires ReplayLines(events).Rebuilt? && Good(ReplayLines(events).task, owners)
    ensures Recover(events) == ReplayLines(events)
  {
  }

  /** A restart on lines that rebuild good tasks leaves memory and log as sound as can be. */
  lemma ReloadSound(r: Record, kept: nat, owners: bool)
    requires Numbered(r) && Reloads(r, kept) && CrashSafe(EventsOf(r.log)[..kept], owners)
    ensures Sound(Reload(r, kept), owners)
  {
    EventsOfPrefix(r.log, kept);
    var events := EventsOf(r.log[..kept]);
    assert events[..kept] == events;
    assert kept > 0;
    RecoverGood(events, owners);
    ReloadNumbered(r, kept);
    AgreesReflexive(Reload(r, kept).task, owners);
  }

  lemma PrefixCrashSafe(events: seq<Event>, kept: nat, owners: bool)
    requires CrashSafe(events, owners) && kept <= |events|
    ensures CrashSafe(events[..kept], owners)
  {
    forall k | 0 < k <= kept
      ensures ReplayLines(events[..kept][..k]).Rebuilt? && Good(ReplayLines(events[..kept][..k]).task, owners)
    {
      assert events[..kept][..k] == events[..k];
    }
  }

  /** An action whose events rebuild what it did keeps the record sound. */
  lemma ActSound(r: Record, a: Action, owners: bool)
    requires Sound(r, owners) && (a.Do? ==> Survivable(r.task, a.call) && (owners ==> OwnersKept(r.task, a.call)))
    ensures Sound(Act(r, a), owners)
  {
    match a
    case Do(c, appended) =>
      PerformFaithful(r.task, c, owners);
      CommitSound(r, Perform(r.task, c), appended, owners);
    case Restart(kept) =>
      if Reloads(r, kept) {
        PrefixCrashSafe(EventsOf(r.log), kept, owners);
        ReloadSound(r, kept, owners);
      }
  }

  /** The record `create_task` registers. */
  ghost function Created(raws: seq<NewStep>): Record
    requires CreateTask(raws).Accepted?
  {
    Commit(Record(CreateTask(raws).task, [], 0), CreateTask(raws), true)
  }

  lemma CreatedLog(raws: seq<NewStep>)
    requires CreateTask(raws).Accepted?
    ensures var r := Created(raws);
      && r.task == CreateTask(raws).task && Numbered(r) && r.log != []
      && EventsOf(r.log) == CreateTask(raws).events && |r.log| == |CreateTask(raws).events|
  {
    FirstCommit(CreateTask(raws));
  }

  lemma FirstCommit(o: Outcome)
    requires o.Accepted? && o.events != []
    ensures var r := Commit(Record(o.task, [], 0), o, true);
      r.task == o.task && Numbered(r) && r.log != [] && EventsOf(r.log) == o.events && |r.log| == |o.events|
  {
    EventsOfLines([], o.events, 0);
    assert EventsOf([]) == [] && [] + o.events == o.events;
  }

  lemma CreatedReplays(raws: seq<NewStep>, owners: bool)
    requires CreateTask(raws).Accepted?
    ensures var o := CreateTask(raws);
      Good(o.task, owners) && CrashSafe(o.events, owners) && ReplayLines(o.events) == Rebuilt(o.task)
  {
    var o := CreateTask(raws);
    CreateGood(raws);
    assert o.events == [o.events[0]] + o.events[1..];
    ReplayFromOne(NoTask, o.events[0]);
    WeakerTracks(o.task, o.events[1..], o.task, owners);
    assert CrashSafe([o.events[0]], owners);
    LogExtends([o.events[0]], o.task, o.events[1..], o.task, owners);
  }

  lemma CreatedSound(raws: seq<NewStep>, owners: bool)
    requires CreateTask(raws).Accepted?
    ensures Sound(Created(raws), owners)
  {
    var r := Created(raws);
    CreatedLog(raws);
    CreatedReplays(raws, owners);
    AgreesReflexive(r.task, owners);
  }

  lemma {:induction false} WeakerTracks(t: Task, events: seq<Event>, last: Task, owners: bool)
    requires Tracks(t, events, last, true)
    ensures Tracks(t, events, last, owners)
    decreases |events|
  {
    if events != [] {
      WeakerTracks(ReplayEvent(t, events[0]).task, events[1..], last, owners);
    }
  }

  // ---------------------------------------------------------------- the main theorems

  /** Same status, roots and steps in order, with equal dependencies, status and lease, and owners where they matter. */
  ghost predicate SameTask(t: Task, back: Task, owners: bool) {
    && back.status == t.status && back.roots == t.roots && SameShape(t.steps, back.steps)
    && forall i :: 0 <= i < |t.steps| ==>
      && back.steps[i].status == t.steps[i].status && back.steps[i].lease == t.steps[i].lease
      && (owners && Live(t.steps[i]) ==> back.steps[i].owner == t.steps[i].owner)
  }

  lemma Recovers(r: Record, owners: bool)
    requires Sound(r, owners)
    ensures var back := Recover(EventsOf(r.log));
      back.Rebuilt? && SameTask(r.task, back.task, owners)
  {
    var events := EventsOf(r.log);
    var b := ReplayLines(events).task;
    AgreesGood(r.task, b, owners);
    RecoverGood(events, owners);
    AgreesFields(r.task, b, owners);
    forall i | 0 <= i < |r.task.steps|
      ensures owners && Live(r.task.steps[i]) ==> b.steps[i].owner == r.task.steps[i].owner
    {
      assert StepAgrees(r.task.steps[i], b.steps[i], owners);
    }
  }

  lemma {:induction false} RunNumbered(raws: seq<NewStep>, actions: seq<Action>)
    requires CreateTask(raws).Accepted?
    ensures Numbered(Run(Created(raws), actions))
    decreases |actions|
  {
    if actions == [] {
      CreatedLog(raws);
    } else {
      var n := |actions| - 1;
      var r := Run(Created(raws), actions[..n]);
      RunNumbered(raws, actions[..n]);
      match actions[n]
      case Do(c, appended) => CommitNumbered(r, Perform(r.task, c), appended);
      case Restart(kept) => ReloadNumbered(r, kept);
    }
  }

  /** Log numbering.  Sequence numbers run 1..n over every failure and restart, and event ids never repeat. */
  lemma LogNumbering(raws: seq<NewStep>, actions: seq<Action>)
    requires CreateTask(raws).Accepted?
    ensures var r := Run(Created(raws), actions);
      && r.walSeq == |r.log|
      && (forall i :: 0 <= i < |r.log| ==> r.log[i].walSeq == i + 1)
      && (forall i, j :: 0 <= i < j < |r.log| ==> r.log[i].eventId != r.log[j].eventId)
  {
    RunNumbered(raws, actions);
    NumberedDistinct(Run(Created(raws), actions));
  }

  lemma NumberedDistinct(r: Record)
    requires Numbered(r)
    ensures forall i, j :: 0 <= i < j < |r.log| ==> r.log[i].eventId != r.log[j].eventId
  {
    forall i, j | 0 <= i < j < |r.log|
      ensures r.log[i].eventId != r.log[j].eventId
    {
      if EventId(i + 1) == EventId(j + 1) {
        EventIdInjective(i + 1, j + 1);
      }
    }
  }

  /** Once a record is terminal no call changes the task, the log or the sequence number. */
  lemma {:induction false} TerminalFrozen(r: Record, actions: seq<Action>)
    requires TerminalTask(r.task) && forall a :: a in actions ==> a.Do?
    ensures Run(r, actions) == r
    decreases |actions|
  {
    if actions != [] {
      TerminalFrozen(r, actions[..|actions| - 1]);
      assert actions[|actions| - 1] in actions;
      assert r.log + Lines([], r.walSeq) == r.log;
    }
  }
}
