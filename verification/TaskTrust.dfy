/**
  What a log is worth along a run, and the main theorems about recovery.

  No run is excluded: calls, failed appends, and restarts on any part of the log may come in any order.  `TrustAfter`
  follows from the calls what replaying the log would give, and the theorems say it does.
 */
module TaskTrust {
  import opened TaskModel
  import opened TaskReplay
  import opened TaskOperations
  import opened TaskSafety
  import opened TaskBatches
  import opened TaskReopens
  import opened TaskRuns
  import opened TaskClaims
  import opened TaskDrift

  // ---------------------------------------------------------------- trust

  /**
    Exact: the log rebuilds the memory.  Drifting: it rebuilds a well-formed task until the task ends, but not the
    memory.  Unreadable: it does not replay.  Revived: the memory was rebuilt from a log that drifted to the end of its
    task.
   */
  datatype Trust = Exact | Drifting | Unreadable | Revived

  /** A batch that goes through and reaches the disk. */
  ghost predicate Commits(r: Record, a: Action) {
    a.Do? && a.call.Update? && a.appended && Perform(r.task, a.call).Accepted?
  }

  /** The whole log of a finished task, which had drifted before the end. */
  ghost predicate Revives(r: Record, trust: Trust, kept: nat) {
    kept == |r.log| && TerminalTask(r.task) && (trust.Drifting? || trust.Revived?)
  }

  ghost function TrustAfter(r: Record, trust: Trust, a: Action): Trust {
    match a
    case Restart(kept) =>
      if !Reloads(r, kept) then trust else if Revives(r, trust, kept) then Revived else Exact
    case Do(c, _) =>
      if !Commits(r, a) then trust
      else if trust.Unreadable? || BreaksLog(r.task, c.ops) then Unreadable
      else if ReopensSettle(r.task, c.ops) then Exact
      else Drifting
  }

  ghost function TrustOf(r: Record, actions: seq<Action>): Trust {
    if actions == [] then Exact
    else
      var n := |actions| - 1;
      TrustAfter(Run(r, actions[..n]), TrustOf(r, actions[..n]), actions[n])
  }

  // ---------------------------------------------------------------- the invariant

  /** The first n prefixes of the log that rebuild anything rebuild well-formed tasks, and each finds a task. */
  ghost predicate WellRead(events: seq<Event>, n: nat)
    requires n <= |events|
  {
    forall k :: 0 < k <= |events| ==>
      && !ReplayLines(events[..k]).NoTask?
      && (k <= n && ReplayLines(events[..k]).Rebuilt? ==> WF(ReplayLines(events[..k]).task))
  }

  /** The prefixes that may be restarted on without reviving anything. */
  ghost function Sane(r: Record, trust: Trust): nat
    requires r.log != []
  {
    if Revives(r, trust, |r.log|) then |r.log| - 1 else |r.log|
  }

  /** What the kind of trust says about memory and the end of replay. */
  ghost predicate Bears(r: Record, trust: Trust, owners: bool) {
    match trust
    case Exact => Sound(r, owners)
    case Drifting =>
      var x := ReplayLines(EventsOf(r.log));
      x.Rebuilt? && if TerminalTask(r.task) then TerminalTask(x.task) else Drift(r.task, x.task)
    case Unreadable => true
    case Revived => TerminalTask(r.task) && Recover(EventsOf(r.log)) == Rebuilt(r.task)
  }

  ghost predicate Holds(r: Record, trust: Trust, owners: bool) {
    && r.log != [] && Numbered(r)
    && (owners ==> ClaimsSafe(r.task, EventsOf(r.log)))
    && WellRead(EventsOf(r.log), Sane(r, trust))
    && (ReplayLines(EventsOf(r.log)).Rebuilt? <==> !trust.Unreadable?)
    && (!trust.Revived? ==> WF(r.task))
    && Bears(r, trust, owners)
  }

  // ---------------------------------------------------------------- reading a longer log

  /** What the events of a batch do to prefixes: none is without a task, and the first n that rebuild do it well. */
  ghost predicate ReadsOn(x: Replayed, batch: seq<Event>, n: nat) {
    forall j :: 0 < j <= |batch| ==>
      !ReplayFrom(x, batch[..j]).NoTask?
      && (j <= n && ReplayFrom(x, batch[..j]).Rebuilt? ==> WF(ReplayFrom(x, batch[..j]).task))
  }

  lemma ReadLonger(events: seq<Event>, batch: seq<Event>, n: nat)
    requires WellRead(events, |events|) && ReadsOn(ReplayLines(events), batch, n) && n <= |batch|
    ensures WellRead(events + batch, |events| + n)
  {
    forall k | 0 < k <= |events + batch|
      ensures var x := ReplayLines((events + batch)[..k]);
        !x.NoTask? && (k <= |events| + n && x.Rebuilt? ==> WF(x.task))
    {
      if k <= |events| {
        assert (events + batch)[..k] == events[..k];
      } else {
        var j := k - |events|;
        assert (events + batch)[..k] == events + batch[..j];
        ReplayFromAppend(NoTask, events, batch[..j]);
      }
    }
  }

  lemma BrokenReadsOn(batch: seq<Event>)
    ensures ReadsOn(Broken, batch, |batch|) && ReplayFrom(Broken, batch) == Broken
  {
    forall j | 0 <= j <= |batch|
      ensures ReplayFrom(Broken, batch[..j]) == Broken
    {
      BrokenStays(batch[..j]);
    }
    BrokenStays(batch);
  }

  lemma NothingBroken(events: seq<Event>)
    requires events != [] && WellRead(events, |events|)
    ensures !ReplayLines(events).NoTask?
  {
    assert events[..|events|] == events;
  }

  /** Where the log replays, all its prefixes do. */
  lemma ReadSafe(t: Task, events: seq<Event>, n: nat, owners: bool)
    requires 0 < n <= |events| && WellRead(events, n) && ReplayLines(events[..n]).Rebuilt?
    requires owners ==> ClaimsSafe(t, events)
    ensures CrashSafe(events[..n], owners)
  {
    forall k | 0 < k <= n
      ensures ReplayLines(events[..n][..k]).Rebuilt? && Good(ReplayLines(events[..n][..k]).task, owners)
    {
      assert events[..n][..k] == events[..k];
      BrokenBefore(NoTask, events[..n], k);
    }
  }

  lemma SoundHolds(r: Record, owners: bool)
    requires Sound(r, owners) && (owners ==> ClaimsSafe(r.task, EventsOf(r.log)))
    ensures Holds(r, Exact, owners)
  {
  }

  // ---------------------------------------------------------------- calls

  lemma NothingLogged(t: Task, c: Call)
    requires Perform(t, c).Accepted?
    ensures Perform(t, c).events == [] ==> Perform(t, c).task == t
    ensures Perform(t, c).events != [] ==> !TerminalTask(t)
  {
  }

  lemma TracksFromSnapshot(t: Task, b: Task, events: seq<Event>, last: Task, owners: bool)
    requires events != [] && events[0].TaskUpdated? && Tracks(t, events, last, owners)
    ensures Tracks(b, events, last, owners)
  {
  }

  /** A batch that settles makes any readable log rebuild the memory again, because its snapshot comes first. */
  lemma SettledRecovers(t: Task, events: seq<Event>, ops: seq<Operation>, owners: bool)
    requires Good(t, owners) && UpdateTask(t, ops).Accepted? && ReopensSettle(t, ops)
    requires CrashSafe(events, owners) && ReplayLines(events).Rebuilt?
    ensures var o := UpdateTask(t, ops);
      Good(o.task, owners) && CrashSafe(events + o.events, owners) && Recoverable(o.task, events + o.events, owners)
  {
    var o := UpdateTask(t, ops);
    SurviveIffSettle(t, ops);
    UpdateFaithful(t, ops, owners);
    var u :| Tracks(t, o.events, u, owners) && Agrees(u, o.task, owners);
    TracksFromSnapshot(t, ReplayLines(events).task, o.events, u, owners);
    LogExtends(events, ReplayLines(events).task, o.events, u, owners);
    AgreesSymmetric(u, o.task, owners);
  }

  lemma UpdateReadsOn(t: Task, ops: seq<Operation>, x: Replayed)
    requires WF(t) && UpdateTask(t, ops).Accepted? && x.Rebuilt?
    ensures var o := UpdateTask(t, ops);
      && ReadsOn(x, o.events, |o.events|)
      && (ReplayFrom(x, o.events).Rebuilt? <==> !BreaksLog(t, ops))
      && (ReplayFrom(x, o.events).Rebuilt? ==> Drift(o.task, ReplayFrom(x, o.events).task))
  {
    var o := UpdateTask(t, ops);
    BatchAlong(t, ops, x);
    BatchBreaksLogIff(t, ops, x);
    forall j | 0 < j <= |o.events|
      ensures !ReplayFrom(x, o.events[..j]).NoTask?
    {
      NeverNone(x.task, o.events[..j]);
    }
    NeverNone(x.task, o.events);
  }

  lemma AlongReadsOn(v: Task, batch: seq<Event>)
    requires SafeAlong(Rebuilt(v), batch)
    ensures ReadsOn(Rebuilt(v), batch, |batch|)
  {
    forall j | 0 < j <= |batch|
      ensures !ReplayFrom(Rebuilt(v), batch[..j]).NoTask?
    {
      NeverNone(v, batch[..j]);
    }
  }

  lemma EndEvents(t: Task, c: Call) returns (ids: seq<StepId>, change: Change)
    requires Ends(c) && Perform(t, c).Accepted? && WF(t)
    ensures var o := Perform(t, c);
      TerminalTask(o.task) && o.events == StepEvents(ids, change) + [TaskFinished(o.task.status, ids)]
    ensures Drops(change) && forall id :: id in ids ==> Has(t.steps, id)
  {
    OpenKnown(t.steps, |t.steps|);
    if c.Complete? {
      LeftoversAreOpen(t.steps, |t.steps|);
      ids, change := LeftoverIds(t.steps, |t.steps|), StepCancelled;
    } else {
      ids, change := OpenIds(t.steps, |t.steps|), if c.cancel then StepCancelled else StepFailed;
    }
  }

  lemma AllButLast(v: Task, batch: seq<Event>, last: Event)
    requires SafeAlong(Rebuilt(v), batch)
    ensures ReadsOn(Rebuilt(v), batch + [last], |batch|)
  {
    forall j | 0 < j <= |batch + [last]|
      ensures !ReplayFrom(Rebuilt(v), (batch + [last])[..j]).NoTask?
      ensures j <= |batch| ==> (batch + [last])[..j] == batch[..j]
    {
      NeverNone(v, (batch + [last])[..j]);
    }
  }

  /** The events that end a task, read by a drifting replay. */
  lemma EndReadsOn(t: Task, v: Task, c: Call)
    requires Ends(c) && Perform(t, c).Accepted? && WF(t) && Drift(t, v)
    ensures var o := Perform(t, c);
      && |o.events| > 0 && TerminalTask(o.task)
      && ReplayFrom(Rebuilt(v), o.events).Rebuilt? && ReplayFrom(Rebuilt(v), o.events).task.status == o.task.status
      && ReadsOn(Rebuilt(v), o.events, |o.events| - 1)
  {
    var status := Perform(t, c).task.status;
    var ids, change := EndEvents(t, c);
    DriftEnds(t, v, ids, change, status);
    AllButLast(v, StepEvents(ids, change), TaskFinished(status, ids));
  }

  lemma {:induction false} OpenKnown(steps: seq<Step>, n: nat)
    requires UniqueIds(steps) && n <= |steps|
    ensures forall id :: id in OpenIds(steps, n) ==> Has(steps, id)
  {
    if n > 0 {
      OpenKnown(steps, n - 1);
      FindUnique(steps, n - 1);
    }
  }

  // ---------------------------------------------------------------- one action

  /** The record a logged call leaves. */
  ghost predicate Logged(r: Record, o: Outcome, next: Record) {
    && o.Accepted? && o.events != [] && next == Commit(r, o, true)
    && next.task == o.task && EventsOf(next.log) == EventsOf(r.log) + o.events && |next.log| == |r.log| + |o.events|
  }

  lemma CommitLogged(r: Record, o: Outcome)
    requires o.Accepted? && o.events != []
    ensures Logged(r, o, Commit(r, o, true))
  {
    EventsOfLines(r.log, o.events, r.walSeq);
  }

  /** Prefixes and readability after a logged call, from what its events do. */
  lemma LoggedReads(r: Record, o: Outcome, next: Record, n: nat)
    requires Logged(r, o, next) && r.log != [] && WellRead(EventsOf(r.log), |r.log|) && n <= |o.events|
    requires ReadsOn(ReplayLines(EventsOf(r.log)), o.events, n)
    ensures WellRead(EventsOf(next.log), |r.log| + n)
    ensures ReplayLines(EventsOf(next.log)) == ReplayFrom(ReplayLines(EventsOf(r.log)), o.events)
  {
    ReadLonger(EventsOf(r.log), o.events, n);
    ReplayFromAppend(NoTask, EventsOf(r.log), o.events);
  }

  ghost predicate Ready(r: Record, trust: Trust, c: Call, o: Outcome, next: Record, owners: bool) {
    && Holds(r, trust, owners) && o == Perform(r.task, c) && Logged(r, o, next) && !TerminalTask(r.task)
    && (owners ==> OwnersKept(r.task, c) && ClaimsSafe(next.task, EventsOf(next.log)))
  }

  lemma UnreadableReads(r: Record, o: Outcome, next: Record)
    requires Logged(r, o, next) && r.log != [] && WellRead(EventsOf(r.log), |r.log|)
    requires !ReplayLines(EventsOf(r.log)).Rebuilt?
    ensures WellRead(EventsOf(next.log), |next.log|) && !ReplayLines(EventsOf(next.log)).Rebuilt?
  {
    NothingBroken(EventsOf(r.log));
    BrokenReadsOn(o.events);
    LoggedReads(r, o, next, |o.events|);
  }

  /** A log that does not replay stays unreadable. */
  lemma UnreadableHolds(r: Record, c: Call, o: Outcome, next: Record, owners: bool)
    requires Ready(r, Unreadable, c, o, next, owners)
    ensures Holds(next, Unreadable, owners)
  {
    UnreadableReads(r, o, next);
    NextGood(r, c, o, next);
  }

  lemma NextGood(r: Record, c: Call, o: Outcome, next: Record)
    requires WF(r.task) && Numbered(r) && o == Perform(r.task, c) && Logged(r, o, next)
    ensures WF(next.task) && Numbered(next) && next.log != []
  {
    CommitNumbered(r, o, true);
    PerformGood(r.task, c, false);
  }

  /** A readable log and a batch that does not settle. */
  lemma UnsettledHolds(r: Record, trust: Trust, c: Call, o: Outcome, next: Record, owners: bool)
    requires Ready(r, trust, c, o, next, owners) && (trust.Exact? || trust.Drifting?) && c.Update?
    ensures Holds(next, if BreaksLog(r.task, c.ops) then Unreadable else Drifting, owners)
  {
    UpdateReadsOn(r.task, c.ops, ReplayLines(EventsOf(r.log)));
    LoggedReads(r, o, next, |o.events|);
    NextGood(r, c, o, next);
    UpdatedUnfinished(r.task, c.ops);
  }

  lemma MemoryGood(r: Record, trust: Trust, owners: bool)
    requires Holds(r, trust, owners) && !trust.Revived?
    ensures Good(r.task, owners)
  {
  }

  lemma WholeSafe(r: Record, trust: Trust, owners: bool)
    requires Holds(r, trust, owners) && (trust.Exact? || trust.Drifting?) && !TerminalTask(r.task)
    ensures CrashSafe(EventsOf(r.log), owners)
  {
    assert EventsOf(r.log)[..|r.log|] == EventsOf(r.log);
    ReadSafe(r.task, EventsOf(r.log), |r.log|, owners);
  }

  /** A readable log and a batch that settles. */
  lemma SettledHolds(r: Record, trust: Trust, c: Call, o: Outcome, next: Record, owners: bool)
    requires Ready(r, trust, c, o, next, owners) && (trust.Exact? || trust.Drifting?)
    requires c.Update? && ReopensSettle(r.task, c.ops)
    ensures Holds(next, Exact, owners)
  {
    MemoryGood(r, trust, owners);
    WholeSafe(r, trust, owners);
    SettledRecovers(r.task, EventsOf(r.log), c.ops, owners);
    CommitNumbered(r, o, true);
    SoundHolds(next, owners);
  }

  /** A log that is exact, and any other call. */
  lemma ExactHolds(r: Record, c: Call, o: Outcome, next: Record, owners: bool)
    requires Ready(r, Exact, c, o, next, owners) && !c.Update?
    ensures Holds(next, Exact, owners)
  {
    PerformFaithful(r.task, c, owners);
    CommitSound(r, o, true, owners);
    SoundHolds(next, owners);
  }

  /** A drifting log, and any other call. */
  lemma DriftingHolds(r: Record, c: Call, o: Outcome, next: Record, owners: bool)
    requires Ready(r, Drifting, c, o, next, owners) && !c.Update?
    ensures Holds(next, Drifting, owners)
  {
    var v := ReplayLines(EventsOf(r.log)).task;
    NextGood(r, c, o, next);
    if Ends(c) {
      EndReadsOn(r.task, v, c);
      LoggedReads(r, o, next, |o.events| - 1);
    } else {
      PerformCarried(r.task, c);
      DriftGoesOn(r.task, v, o);
      AlongReadsOn(v, o.events);
      LoggedReads(r, o, next, |o.events|);
      GoesOn(r.task, c);
    }
  }

  lemma GoesOn(t: Task, c: Call)
    requires !c.Update? && !Ends(c) && Perform(t, c).Accepted? && !TerminalTask(t)
    ensures !TerminalTask(Perform(t, c).task)
  {
  }

  lemma DoHolds(r: Record, trust: Trust, c: Call, appended: bool, owners: bool)
    requires Holds(r, trust, owners) && (owners ==> OwnersKept(r.task, c))
    ensures Holds(Act(r, Do(c, appended)), TrustAfter(r, trust, Do(c, appended)), owners)
  {
    var o, next := Perform(r.task, c), Act(r, Do(c, appended));
    if o.Rejected? || o.events == [] || !appended {
      if o.Accepted? {
        NothingLogged(r.task, c);
        assert r.log + Lines([], r.walSeq) == r.log;
      }
      assert next == r;
    } else {
      NothingLogged(r.task, c);
      CommitLogged(r, o);
      if owners {
        ActClaimsSafe(r, Do(c, appended));
      }
      LoggedHolds(r, trust, c, o, next, owners);
    }
  }

  lemma LoggedHolds(r: Record, trust: Trust, c: Call, o: Outcome, next: Record, owners: bool)
    requires Ready(r, trust, c, o, next, owners)
    ensures Holds(next, TrustAfter(r, trust, Do(c, true)), owners)
  {
    if trust.Unreadable? {
      UnreadableHolds(r, c, o, next, owners);
    } else {
      assert trust.Exact? || trust.Drifting?;
      match c
      case Update(ops) =>
        if BreaksLog(r.task, ops) || !ReopensSettle(r.task, ops) {
          UnsettledHolds(r, trust, c, o, next, owners);
        } else {
          SettledHolds(r, trust, c, o, next, owners);
        }
      case _ =>
        if trust.Exact? {
          ExactHolds(r, c, o, next, owners);
        } else {
          DriftingHolds(r, c, o, next, owners);
        }
    }
  }

  lemma RestartHolds(r: Record, trust: Trust, kept: nat, owners: bool)
    requires Holds(r, trust, owners)
    ensures Holds(Act(r, Restart(kept)), TrustAfter(r, trust, Restart(kept)), owners)
  {
    if Reloads(r, kept) {
      if owners {
        ReloadClaimsSafe(r, kept);
      }
      var events := EventsOf(r.log);
      EventsOfPrefix(r.log, kept);
      assert kept > 0;
      if Revives(r, trust, kept) {
        RevivedHolds(r, trust, owners);
      } else {
        SanePrefix(r, trust, kept);
        ReadSafe(r.task, events, kept, owners);
        ReloadSound(r, kept, owners);
        SoundHolds(Reload(r, kept), owners);
      }
    }
  }

  lemma SanePrefix(r: Record, trust: Trust, kept: nat)
    requires r.log != [] && WellRead(EventsOf(r.log), Sane(r, trust))
    requires 0 < kept <= |r.log| && !Revives(r, trust, kept)
    ensures WellRead(EventsOf(r.log), kept)
  {
  }

  lemma RevivedHolds(r: Record, trust: Trust, owners: bool)
    requires Holds(r, trust, owners) && Revives(r, trust, |r.log|)
    requires owners ==> ClaimsSafe(Reload(r, |r.log|).task, EventsOf(Reload(r, |r.log|).log))
    ensures Holds(Reload(r, |r.log|), Revived, owners)
  {
    assert r.log[..|r.log|] == r.log;
    ReloadNumbered(r, |r.log|);
  }

  // ---------------------------------------------------------------- the main theorems

  /** The invariant holds after any run; live owners are compared under the owner discipline. */
  lemma {:induction false} RunHolds(raws: seq<NewStep>, actions: seq<Action>, owners: bool)
    requires CreateTask(raws).Accepted? && (owners ==> OwnersKeptRun(Created(raws), actions))
    ensures Holds(Run(Created(raws), actions), TrustOf(Created(raws), actions), owners)
    decreases |actions|
  {
    if actions == [] {
      CreatedSound(raws, owners);
      if owners {
        CreatedClaimsSafe(raws);
      }
      SoundHolds(Created(raws), owners);
    } else {
      var n := |actions| - 1;
      var r, trust := Run(Created(raws), actions[..n]), TrustOf(Created(raws), actions[..n]);
      RunHolds(raws, actions[..n], owners);
      match actions[n]
      case Do(c, appended) => DoHolds(r, trust, c, appended, owners);
      case Restart(kept) => RestartHolds(r, trust, kept, owners);
    }
  }

  /**
    Recovery refinement.  Whenever the log is exact, replaying it gives the live task, down to the lease of every step
    and, under the owner discipline, the owner of every live one.
   */
  lemma RecoveryRefinement(raws: seq<NewStep>, actions: seq<Action>, owners: bool)
    requires CreateTask(raws).Accepted? && (owners ==> OwnersKeptRun(Created(raws), actions))
    requires var trust := TrustOf(Created(raws), actions); trust.Exact? || trust.Revived?
    ensures var r := Run(Created(raws), actions);
      var back := Recover(EventsOf(r.log));
      back.Rebuilt? && SameTask(r.task, back.task, owners)
  {
    RunHolds(raws, actions, owners);
    if TrustOf(Created(raws), actions).Exact? {
      Recovers(Run(Created(raws), actions), owners);
    }
  }

  /** A log can be replayed exactly when no batch since the last restart ended without a step it had reopened. */
  lemma ReadableIff(raws: seq<NewStep>, actions: seq<Action>)
    requires CreateTask(raws).Accepted?
    ensures !TrustOf(Created(raws), actions).Unreadable? <==>
      Recover(EventsOf(Run(Created(raws), actions).log)).Rebuilt?
  {
    RunHolds(raws, actions, false);
  }

  /**
    Crash consistency.  Every non-empty prefix of a log, cut anywhere, that can be replayed gives a well-formed task,
    but for the whole log of a finished task that had drifted; and on a readable log every prefix can be replayed.
   */
  lemma CrashConsistency(raws: seq<NewStep>, actions: seq<Action>, kept: nat)
    requires CreateTask(raws).Accepted? && 0 < kept <= |Run(Created(raws), actions).log|
    ensures var r, trust := Run(Created(raws), actions), TrustOf(Created(raws), actions);
      var back := Recover(EventsOf(r.log[..kept]));
      && (back.Rebuilt? && !Revives(r, trust, kept) ==> WF(back.task))
      && (!trust.Unreadable? ==> back.Rebuilt?)
  {
    var r, trust := Run(Created(raws), actions), TrustOf(Created(raws), actions);
    RunHolds(raws, actions, false);
    EventsOfPrefix(r.log, kept);
    if ReplayLines(EventsOf(r.log[..kept])).Rebuilt? && !Revives(r, trust, kept) {
      SanePrefix(r, trust, kept);
      RecoverGood(EventsOf(r.log[..kept]), false);
    }
    if !trust.Unreadable? {
      BrokenBefore(NoTask, EventsOf(r.log), kept);
    }
  }

  /** Reachable tasks are well formed, unless memory was rebuilt from a log that had drifted to the end of its task. */
  lemma ReachableGood(raws: seq<NewStep>, actions: seq<Action>)
    requires CreateTask(raws).Accepted? && !TrustOf(Created(raws), actions).Revived?
    ensures WF(Run(Created(raws), actions).task)
  {
    RunHolds(raws, actions, false);
  }

  /** Without restarts memory is never rebuilt from anything. */
  lemma {:induction false} NeverRevived(r: Record, actions: seq<Action>)
    requires forall a :: a in actions ==> a.Do?
    ensures !TrustOf(r, actions).Revived?
    decreases |actions|
  {
    if actions != [] {
      assert actions[|actions| - 1] in actions;
      NeverRevived(r, actions[..|actions| - 1]);
    }
  }

  /** Calls alone keep the task well formed, whatever batches and reports they send. */
  lemma CallsKeepGood(raws: seq<NewStep>, actions: seq<Action>)
    requires CreateTask(raws).Accepted? && forall a :: a in actions ==> a.Do?
    ensures WF(Run(Created(raws), actions).task)
  {
    NeverRevived(Created(raws), actions);
    ReachableGood(raws, actions);
  }

  /**
    Terminal safety.  A finished task has only finished steps, and a completed one all its required steps completed.
   */
  lemma TerminalSafety(raws: seq<NewStep>, actions: seq<Action>)
    requires CreateTask(raws).Accepted? && !TrustOf(Created(raws), actions).Revived?
    ensures var t := Run(Created(raws), actions).task;
      && (TerminalTask(t) ==> forall s :: s in t.steps ==> TerminalStep(s))
      && (t.status.TaskCompleted? ==> forall s :: s in t.steps && s.required ==> s.status.Completed?)
  {
    ReachableGood(raws, actions);
  }

  // ---------------------------------------------------------------- careful runs

  /** Every batch of the run keeps its reopenings; this can be read off the calls. */
  ghost predicate Careful(actions: seq<Action>) {
    forall a :: a in actions && a.Do? && a.call.Update? ==> KeepsReopens(a.call.ops)
  }

  lemma {:induction false} WaitingNotDeleted(ops: seq<Operation>, id: StepId, reopened: bool)
    ensures !(EndsWaiting(ops, id, reopened) && EndsDeleted(ops, id))
  {
    if ops != [] {
      var n := |ops| - 1;
      WaitingNotDeleted(ops[..n], id, reopened || ops[n] == ReopenStep(id));
    }
  }

  lemma SettledReads(t: Task, ops: seq<Operation>)
    requires ReopensSettle(t, ops)
    ensures !BreaksLog(t, ops)
  {
    forall op | op in ops && op.ReopenStep? && ToReopen(t, op.id)
      ensures !EndsDeleted(ops, op.id)
    {
      WaitingNotDeleted(ops, op.id, false);
    }
  }

  lemma {:induction false} CarefulExact(r: Record, actions: seq<Action>)
    requires Careful(actions)
    ensures TrustOf(r, actions) == Exact
    decreases |actions|
  {
    if actions != [] {
      var n := |actions| - 1;
      var before := Run(r, actions[..n]);
      CarefulExact(r, actions[..n]);
      assert actions[n] in actions;
      if Commits(before, actions[n]) {
        KeptReopensSurvive(before.task, actions[n].call.ops);
        SurviveIffSettle(before.task, actions[n].call.ops);
        SettledReads(before.task, actions[n].call.ops);
      }
    }
  }

  /** With careful batches and the owner discipline, every run is recovered and may crash at any line. */
  lemma CarefulRunsRecover(raws: seq<NewStep>, actions: seq<Action>, kept: nat)
    requires CreateTask(raws).Accepted? && Careful(actions) && OwnersKeptRun(Created(raws), actions)
    requires 0 < kept <= |Run(Created(raws), actions).log|
    ensures var r := Run(Created(raws), actions);
      var back, cut := Recover(EventsOf(r.log)), Recover(EventsOf(r.log[..kept]));
      && back.Rebuilt? && SameTask(r.task, back.task, true)
      && cut.Rebuilt? && WF(cut.task)
  {
    CarefulExact(Created(raws), actions);
    RecoveryRefinement(raws, actions, true);
    CrashConsistency(raws, actions, kept);
  }
}
