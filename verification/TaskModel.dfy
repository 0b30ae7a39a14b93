/**
  Tasks, steps and the two promotions that every committed change ends with.

  A step's claimant (agent id and run id, always written together) is its `owner`; times are
  naturals.  Titles, summaries, reasons, results and timestamps carry no control flow and are
  not modelled.
 */
module TaskModel {
  import opened Wrappers
  import opened DependencyGraph

  type StepId = nat
  type Time = nat

  datatype StepStatus = Pending | Ready | Claimed | Running | Blocked | Completed | Failed | Cancelled
  datatype TaskStatus = TaskPending | TaskRunning | TaskBlocked | TaskCompleted | TaskFailed | TaskCancelled

  datatype Owner = Owner(agent: nat, run: nat)

  datatype Step = Step(
    id: StepId,
    status: StepStatus,
    deps: seq<StepId>,
    required: bool,
    owner: Option<Owner>,
    lease: Option<Time>)

  datatype Task = Task(status: TaskStatus, roots: seq<StepId>, steps: seq<Step>)

  predicate Live(s: Step) { s.status.Claimed? || s.status.Running? }

  predicate Waiting(s: Step) { s.status.Pending? || s.status.Ready? }

  predicate TerminalStep(s: Step) { s.status.Completed? || s.status.Failed? || s.status.Cancelled? }

  predicate TerminalTask(t: Task) { t.status.TaskCompleted? || t.status.TaskFailed? || t.status.TaskCancelled? }

  predicate OwnedBy(s: Step, run: nat) { s.owner.Some? && s.owner.value.run == run }

  // ---------------------------------------------------------------- lookup

  /** Index of the first step with this id; the number of steps when there is none. */
  function Find(steps: seq<Step>, id: StepId): (i: nat)
    ensures i <= |steps|
    ensures i < |steps| ==> steps[i].id == id
    ensures forall j :: 0 <= j < i ==> steps[j].id != id
  {
    if steps == [] || steps[0].id == id then 0 else 1 + Find(steps[1..], id)
  }

  predicate Has(steps: seq<Step>, id: StepId) { Find(steps, id) < |steps| }

  ghost predicate UniqueIds(steps: seq<Step>) {
    forall i, j :: 0 <= i < j < |steps| ==> steps[i].id != steps[j].id
  }

  lemma FindUnique(steps: seq<Step>, i: nat)
    requires UniqueIds(steps) && i < |steps|
    ensures Find(steps, steps[i].id) == i
  {
    var k := Find(steps, steps[i].id);
    assert k <= i;
  }

  // ---------------------------------------------------------------- the dependency DAG

  ghost function DependencyEdges(steps: seq<Step>): set<Edge> {
    set i, d | 0 <= i < |steps| && d in steps[i].deps :: (steps[i].id, d)
  }

  ghost predicate DepsClosed(steps: seq<Step>) {
    forall i, d :: 0 <= i < |steps| && d in steps[i].deps ==> Has(steps, d)
  }

  /** What `validate_steps` accepts: distinct ids, dependencies on existing steps, no directed cycle. */
  ghost predicate SoundDag(steps: seq<Step>) {
    UniqueIds(steps) && DepsClosed(steps) && NoCycle(DependencyEdges(steps))
  }

  /** Same ids, dependencies and required flags, position by position. */
  ghost predicate SameShape(a: seq<Step>, b: seq<Step>) {
    && |a| == |b|
    && forall i :: 0 <= i < |a| ==> a[i].id == b[i].id && a[i].deps == b[i].deps && a[i].required == b[i].required
  }

  lemma SameShapeFind(a: seq<Step>, b: seq<Step>, id: StepId)
    requires SameShape(a, b)
    ensures Find(a, id) == Find(b, id)
  {
    assert Find(a, id) < |b| ==> b[Find(a, id)].id == a[Find(a, id)].id;
  }

  lemma SameShapeSound(a: seq<Step>, b: seq<Step>)
    requires SameShape(a, b) && SoundDag(a)
    ensures SoundDag(b)
  {
    assert DependencyEdges(a) == DependencyEdges(b);
    forall i, d | 0 <= i < |b| && d in b[i].deps
      ensures Has(b, d)
    {
      assert a[i].deps == b[i].deps;
      assert Has(a, d);
      SameShapeFind(a, b, d);
    }
  }

  /** `sync_task_roots`: ids of the steps without dependencies, in step order. */
  function Roots(steps: seq<Step>): seq<StepId> {
    if steps == [] then []
    else
      var n := |steps| - 1;
      Roots(steps[..n]) + (if steps[n].deps == [] then [steps[n].id] else [])
  }

  lemma {:induction false} SameShapeRoots(a: seq<Step>, b: seq<Step>)
    requires SameShape(a, b)
    ensures Roots(a) == Roots(b)
  {
    if a != [] {
      SameShapeRoots(a[..|a| - 1], b[..|b| - 1]);
    }
  }

  // ---------------------------------------------------------------- promotion

  function CompletedIds(steps: seq<Step>): set<StepId> {
    set i | 0 <= i < |steps| && steps[i].status.Completed? :: steps[i].id
  }

  predicate DepsMet(s: Step, completed: set<StepId>) {
    forall d :: d in s.deps ==> d in completed
  }

  function PromoteStep(s: Step, completed: set<StepId>): Step {
    if Waiting(s) then s.(status := if DepsMet(s, completed) then Ready else Pending) else s
  }

  function PromoteAll(steps: seq<Step>, completed: set<StepId>): seq<Step> {
    seq(|steps|, i requires 0 <= i < |steps| => PromoteStep(steps[i], completed))
  }

  /** `promote_ready`: waiting steps become ready or pending by their dependencies, both ways. */
  function PromoteReady(steps: seq<Step>): seq<Step> {
    PromoteAll(steps, CompletedIds(steps))
  }

  predicate AnyActive(steps: seq<Step>) {
    exists i :: 0 <= i < |steps| && (steps[i].status.Ready? || Live(steps[i]))
  }

  /** `promote_running`. */
  function PromoteRunning(status: TaskStatus, steps: seq<Step>): TaskStatus {
    if status.TaskPending? && AnyActive(steps) then TaskRunning else status
  }

  function Promote(t: Task): Task {
    var steps := PromoteReady(t.steps);
    Task(PromoteRunning(t.status, steps), t.roots, steps)
  }

  // ---------------------------------------------------------------- well-formedness

  /** A waiting step is ready exactly when its dependencies are completed. */
  ghost predicate ReadyIffMet(steps: seq<Step>) {
    forall i :: 0 <= i < |steps| && Waiting(steps[i]) ==>
      (steps[i].status.Ready? <==> DepsMet(steps[i], CompletedIds(steps)))
  }

  ghost predicate LeasesOnLive(steps: seq<Step>) {
    forall i :: 0 <= i < |steps| && steps[i].lease.Some? ==> Live(steps[i])
  }

  /** A finished task has only finished steps, and a completed one has all its required steps completed. */
  ghost predicate Settled(t: Task) {
    forall i :: 0 <= i < |t.steps| ==>
      && (TerminalTask(t) ==> TerminalStep(t.steps[i]))
      && (t.status.TaskCompleted? && t.steps[i].required ==> t.steps[i].status.Completed?)
  }

  ghost predicate WF(t: Task) {
    && SoundDag(t.steps)
    && t.roots == Roots(t.steps)
    && ReadyIffMet(t.steps)
    && (t.status.TaskPending? ==> !AnyActive(t.steps))
    && LeasesOnLive(t.steps)
    && Settled(t)
  }

  /** Each run owns at most one live step. */
  ghost predicate UniqueClaims(t: Task) {
    forall i, j :: 0 <= i < j < |t.steps| && Live(t.steps[i]) && Live(t.steps[j])
      && t.steps[i].owner.Some? && t.steps[j].owner.Some?
      ==> t.steps[i].owner.value.run != t.steps[j].owner.value.run
  }

  // ---------------------------------------------------------------- laws of promotion

  lemma CompletedAgree(a: seq<Step>, b: seq<Step>)
    requires |a| == |b|
    requires forall i :: 0 <= i < |a| ==> a[i].id == b[i].id && a[i].status.Completed? == b[i].status.Completed?
    ensures CompletedIds(a) == CompletedIds(b)
  {
    forall x ensures x in CompletedIds(a) <==> x in CompletedIds(b) {
      if x in CompletedIds(a) {
        var i :| 0 <= i < |a| && a[i].status.Completed? && a[i].id == x;
        assert b[i].status.Completed? && b[i].id == x;
      }
      if x in CompletedIds(b) {
        var i :| 0 <= i < |b| && b[i].status.Completed? && b[i].id == x;
        assert a[i].status.Completed? && a[i].id == x;
      }
    }
  }

  lemma PromoteReadyLaws(steps: seq<Step>)
    ensures SameShape(steps, PromoteReady(steps))
    ensures CompletedIds(PromoteReady(steps)) == CompletedIds(steps)
    ensures ReadyIffMet(PromoteReady(steps))
    ensures LeasesOnLive(steps) ==> LeasesOnLive(PromoteReady(steps))
  {
    CompletedAgree(steps, PromoteReady(steps));
  }

  /** Promotion changes nothing exactly when the waiting steps and the task status are already right. */
  lemma PromoteFixpoint(t: Task)
    ensures Promote(t) == t <==> ReadyIffMet(t.steps) && (t.status.TaskPending? ==> !AnyActive(t.steps))
  {
    if ReadyIffMet(t.steps) {
      assert PromoteReady(t.steps) == t.steps;
    } else {
      var i :| 0 <= i < |t.steps| && Waiting(t.steps[i])
               && !(t.steps[i].status.Ready? <==> DepsMet(t.steps[i], CompletedIds(t.steps)));
      assert PromoteReady(t.steps)[i] != t.steps[i];
    }
  }

  /**
    The invariant kernel: replace one step of an unfinished well-formed task by any step of the same
    shape that carries a lease only when live, promote, and the task is well-formed again.
   */
  lemma ChangeKeepsWF(t: Task, i: nat, s: Step)
    requires WF(t) && !TerminalTask(t) && i < |t.steps|
    requires s.id == t.steps[i].id && s.deps == t.steps[i].deps && s.required == t.steps[i].required
    requires s.lease.Some? ==> Live(s)
    ensures WF(Promote(t.(steps := t.steps[i := s])))
    ensures SameShape(t.steps, Promote(t.(steps := t.steps[i := s])).steps)
  {
    var changed := t.steps[i := s];
    var u := Promote(t.(steps := changed));
    PromoteReadyLaws(changed);
    assert SameShape(t.steps, changed);
    assert SameShape(t.steps, u.steps);
    SameShapeSound(t.steps, u.steps);
    SameShapeRoots(t.steps, u.steps);
  }

  /** If the change neither completes nor un-completes the step, promotion touches only that step. */
  lemma LocalChange(t: Task, i: nat, s: Step)
    requires WF(t) && i < |t.steps| && s.id == t.steps[i].id
    requires s.status.Completed? == t.steps[i].status.Completed?
    ensures CompletedIds(t.steps[i := s]) == CompletedIds(t.steps)
    ensures Promote(t.(steps := t.steps[i := s])).steps == t.steps[i := PromoteStep(s, CompletedIds(t.steps))]
  {
    CompletedAgree(t.steps, t.steps[i := s]);
    var u := Promote(t.(steps := t.steps[i := s]));
    forall j | 0 <= j < |t.steps|
      ensures u.steps[j] == t.steps[i := PromoteStep(s, CompletedIds(t.steps))][j]
    {
    }
  }
}
