/**
  The memory extraction job: planning which files to write, writing them all or none, and moving the scan cursor.
 */
module MemoryJob {
  import opened Wrappers
  import opened Text
  import opened Frontmatter

  type Path = string
  type Files = map<Path, string>

  /** A prepared candidate, or one whose category is not kept. */
  datatype Operation = Ignored(filename: string) | Prepared(path: Path, content: string)

  /** A write to do, with what the file held when the job began. */
  datatype Pending = Pending(path: Path, content: string, before: Option<string>)

  datatype Plan = Plan(writes: seq<Pending>, created: seq<Path>, updated: seq<Path>, ignored: seq<string>,
                       duplicate: seq<Path>, changed: seq<Path>)

  const NO_PLAN := Plan([], [], [], [], [], [])

  /** What is on disk. */
  function Held(files: Files, path: Path): Option<string> {
    if path in files then Some(files[path]) else None
  }

  /** What the job reads. */
  function Read(files: Files, path: Path): Option<string> {
    if path in files then Some(ReadBack(files[path])) else None
  }

  // ---------------------------------------------------------------- equivalent memories

  const VOLATILE := {"created_at", "updated_at"}

  /** `_memory_equivalent`. */
  predicate Equivalent(left: string, right: string) {
    Parse(left) - VOLATILE == Parse(right) - VOLATILE && Trim(Strip(left)) == Trim(Strip(right))
  }

  /** Printed memories are equivalent exactly when they read back alike, stamps aside, and their bodies trim alike. */
  lemma EquivalentIff(data: seq<Entry>, body: string, data': seq<Entry>, body': string)
    requires GoodData(data) && GoodData(data')
    ensures Equivalent(Print(data) + body, Print(data') + body')
       <==> Metadata(map[], data) - VOLATILE == Metadata(map[], data') - VOLATILE && Trim(body) == Trim(body')
  {
    StripPrint(data, body);
    StripPrint(data', body');
    ParsePrint(data, body);
    ParsePrint(data', body');
  }

  /** The same keys, and for all but the stamps the same scalars; lists may differ. */
  predicate Restamped(data: seq<Entry>, data': seq<Entry>) {
    && |data| == |data'|
    && forall i :: 0 <= i < |data| ==>
      data[i].key == data'[i].key && (data[i].key in VOLATILE || Meaning(data[i].value) == Meaning(data'[i].value))
  }

  lemma UpdateOutside(acc: map<string, string>, acc': map<string, string>, k: string, v: string, v': string)
    requires acc - VOLATILE == acc' - VOLATILE && (k in VOLATILE || v == v')
    ensures acc[k := v] - VOLATILE == acc'[k := v'] - VOLATILE
  {
    var a, a' := acc - VOLATILE, acc' - VOLATILE;
    if k in VOLATILE {
      assert acc[k := v] - VOLATILE == a && acc'[k := v'] - VOLATILE == a';
    } else {
      assert acc[k := v] - VOLATILE == a[k := v] && acc'[k := v'] - VOLATILE == a'[k := v'];
    }
  }

  lemma {:induction false} RestampedMetadata(acc: map<string, string>, acc': map<string, string>, data: seq<Entry>,
                                             data': seq<Entry>)
    requires acc - VOLATILE == acc' - VOLATILE && Restamped(data, data')
    ensures Metadata(acc, data) - VOLATILE == Metadata(acc', data') - VOLATILE
    decreases |data|
  {
    if data != [] {
      var k, v, v' := data[0].key, Meaning(data[0].value), Meaning(data'[0].value);
      UpdateOutside(acc, acc', k, v, v');
      RestampedMetadata(acc[k := v], acc'[k := v'], data[1..], data'[1..]);
    }
  }

  /** New stamps, and new list items, leave a memory equivalent. */
  lemma RestampedEquivalent(data: seq<Entry>, data': seq<Entry>, body: string)
    requires GoodData(data) && GoodData(data') && Restamped(data, data')
    ensures Equivalent(Print(data) + body, Print(data') + body)
  {
    EquivalentIff(data, body, data', body);
    RestampedMetadata(map[], map[], data, data');
  }

  // ---------------------------------------------------------------- the plan

  predicate Duplicate(before: Option<string>, content: string) {
    before.Some? && (before.value == content || Equivalent(before.value, content))
  }

  function PlanStep(files: Files, plan: Plan, op: Operation): Plan {
    match op
    case Ignored(filename) => plan.(ignored := plan.ignored + [filename])
    case Prepared(path, content) =>
      var before := Read(files, path);
      if Duplicate(before, content) then plan.(duplicate := plan.duplicate + [path])
      else
        var p := plan.(writes := plan.writes + [Pending(path, content, before)], changed := plan.changed + [path]);
        if before.None? then p.(created := p.created + [path]) else p.(updated := p.updated + [path])
  }

  function PlanOps(files: Files, plan: Plan, ops: seq<Operation>): Plan
    decreases |ops|
  {
    if ops == [] then plan else PlanOps(files, PlanStep(files, plan, ops[0]), ops[1..])
  }

  /** The catalog is written last, and only when it changes. */
  function PlanOf(files: Files, ops: seq<Operation>, catalogPath: Path, catalog: string): Plan {
    var plan := PlanOps(files, NO_PLAN, ops);
    if Read(files, catalogPath) == Some(catalog) then plan
    else plan.(writes := plan.writes + [Pending(catalogPath, catalog, Read(files, catalogPath))],
               changed := plan.changed + [catalogPath])
  }

  /** Every planned write remembers what was there before the first of them. */
  ghost predicate Remembers(files: Files, writes: seq<Pending>) {
    forall w :: w in writes ==> w.before == Read(files, w.path)
  }

  lemma {:induction false} PlanRemembers(files: Files, plan: Plan, ops: seq<Operation>)
    requires Remembers(files, plan.writes)
    ensures Remembers(files, PlanOps(files, plan, ops).writes)
    decreases |ops|
  {
    if ops != [] {
      PlanRemembers(files, PlanStep(files, plan, ops[0]), ops[1..]);
    }
  }

  // ---------------------------------------------------------------- writing and rolling back

  function Write(files: Files, writes: seq<Pending>): Files
    decreases |writes|
  {
    if writes == [] then files
    else
      var last := writes[|writes| - 1];
      Write(files, writes[..|writes| - 1])[last.path := last.content]
  }

  /** A file with the given text, or gone. */
  function Put(files: Files, path: Path, text: Option<string>): Files {
    if text.Some? then files[path := text.value] else files - {path}
  }

  ghost predicate WrittenSoFar(files: Files, original: Files, writes: seq<Pending>, i: nat)
    requires i <= |writes|
  {
    files == Write(original, writes[..i])
  }

  lemma WriteMore(files: Files, original: Files, writes: seq<Pending>, i: nat)
    requires i < |writes| && WrittenSoFar(files, original, writes, i)
    ensures WrittenSoFar(files[writes[i].path := writes[i].content], original, writes, i + 1)
  {
    assert writes[..i + 1][..i] == writes[..i];
  }

  lemma AllWritten(files: Files, original: Files, writes: seq<Pending>)
    requires WrittenSoFar(files, original, writes, |writes|)
    ensures files == Write(original, writes)
  {
    assert writes[..|writes|] == writes;
  }

  predicate Hit(writes: seq<Pending>, path: Path) {
    exists w :: w in writes && w.path == path
  }

  /** Away from the first n writes nothing differs from the given files. */
  ghost predicate DiffersOnlyAt(files: Files, original: Files, writes: seq<Pending>, n: nat)
    requires n <= |writes|
  {
    forall p :: !Hit(writes[..n], p) ==> Held(files, p) == Held(original, p)
  }

  lemma HitMore(writes: seq<Pending>, n: nat, p: Path)
    requires n < |writes|
    ensures Hit(writes[..n + 1], p) <==> Hit(writes[..n], p) || writes[n].path == p
  {
    assert writes[..n + 1] == writes[..n] + [writes[n]];
  }

  lemma {:induction false} WriteDiffers(files: Files, writes: seq<Pending>)
    ensures DiffersOnlyAt(Write(files, writes), files, writes, |writes|)
    decreases |writes|
  {
    if writes != [] {
      var n := |writes| - 1;
      WriteDiffers(files, writes[..n]);
      assert writes[..n][..n] == writes[..n];
      forall p | !Hit(writes[..n + 1], p)
        ensures Held(Write(files, writes), p) == Held(files, p)
      {
        HitMore(writes, n, p);
      }
    }
  }

  /** Once all writes have landed, a file holds what the last write to it said. */
  lemma {:induction false} LastWriteLands(files: Files, writes: seq<Pending>, k: nat)
    requires k < |writes| && forall j :: k < j < |writes| ==> writes[j].path != writes[k].path
    ensures Held(Write(files, writes), writes[k].path) == Some(writes[k].content)
    decreases |writes|
  {
    var n := |writes| - 1;
    if k < n {
      assert writes[..n][k] == writes[k];
      LastWriteLands(files, writes[..n], k);
    }
  }

  lemma UnwrittenStays(files: Files, writes: seq<Pending>, p: Path)
    requires forall w :: w in writes ==> w.path != p
    ensures Held(Write(files, writes), p) == Held(files, p)
  {
    WriteDiffers(files, writes);
    assert writes[..|writes|] == writes;
  }

  // ---------------------------------------------------------------- failing writes

  /** A write lands, is refused before it touches the file, or breaks off and leaves anything at its path. */
  datatype Attempt = Lands | Refuses | Breaks(left: Option<string>)

  /** The first of n writes that fails, or n. */
  function Stop(attempt: nat -> Attempt, n: nat): (i: nat)
    ensures i <= n && (forall j :: 0 <= j < i ==> attempt(j).Lands?) && (i < n ==> !attempt(i).Lands?)
  {
    if n == 0 then 0
    else
      var i := Stop(attempt, n - 1);
      if i == n - 1 && attempt(i).Lands? then n else i
  }

  /**
    What is at p once the write i has failed and those before it are undone: where they went, what the job had read
    there; where the failing one went, what it left; elsewhere, what was there.
   */
  function AfterFailure(original: Files, writes: seq<Pending>, i: nat, a: Attempt, p: Path): Option<string>
    requires i < |writes|
  {
    if Hit(writes[..i], p) then Read(original, p)
    else if a.Breaks? && p == writes[i].path then a.left
    else Held(original, p)
  }

  ghost predicate FailedAt(files: Files, original: Files, writes: seq<Pending>, i: nat, a: Attempt)
    requires i < |writes|
  {
    forall p :: Held(files, p) == AfterFailure(original, writes, i, a, p)
  }

  /** Undoing leaves the files exactly as they were if and only if no file it restores held a carriage return. */
  lemma AsBeforeIff(original: Files, writes: seq<Pending>, i: nat, a: Attempt)
    requires i < |writes|
    ensures FailedAt(original, original, writes, i, a)
      <==> && (forall j :: 0 <= j < i && writes[j].path in original ==> '\r' !in original[writes[j].path])
           && (a.Breaks? && !Hit(writes[..i], writes[i].path) ==> a.left == Held(original, writes[i].path))
  {
    forall p | p in original
      ensures Read(original, p) == Held(original, p) <==> '\r' !in original[p]
    {
      ReadBackPlain(original[p]);
    }
    forall j | 0 <= j < i
      ensures Hit(writes[..i], writes[j].path)
    {
      assert writes[..i][j] == writes[j];
    }
    forall p | Hit(writes[..i], p)
      ensures exists j :: 0 <= j < i && writes[j].path == p
    {
      var w :| w in writes[..i] && w.path == p;
      var j :| 0 <= j < i && writes[..i][j] == w;
      assert writes[j].path == p;
    }
    if FailedAt(original, original, writes, i, a) {
      forall j | 0 <= j < i && writes[j].path in original
        ensures '\r' !in original[writes[j].path]
      {
        assert AfterFailure(original, writes, i, a, writes[j].path) == Held(original, writes[j].path);
      }
      assert AfterFailure(original, writes, i, a, writes[i].path) == Held(original, writes[i].path);
    }
  }

  /** No file but those the undone writes and the failing write went to is touched. */
  ghost predicate Undone(files: Files, before: Files, original: Files, writes: seq<Pending>, n: nat)
    requires n <= |writes|
  {
    forall p :: Held(files, p) == if Hit(writes[n..], p) then Read(original, p) else Held(before, p)
  }

  lemma UndoneMore(files: Files, before: Files, original: Files, writes: seq<Pending>, n: nat)
    requires n < |writes| && Undone(files, before, original, writes, n + 1)
    requires writes[n].before == Read(original, writes[n].path)
    ensures Undone(Put(files, writes[n].path, writes[n].before), before, original, writes, n)
  {
    var files' := Put(files, writes[n].path, writes[n].before);
    assert writes[n..] == [writes[n]] + writes[n + 1..];
    forall p
      ensures Held(files', p) == if Hit(writes[n..], p) then Read(original, p) else Held(before, p)
    {
      assert Hit(writes[n..], p) <==> writes[n].path == p || Hit(writes[n + 1..], p);
    }
  }

  /** The writes before the failing one are undone from what that left. */
  lemma FailureUndone(original: Files, writes: seq<Pending>, i: nat, a: Attempt, before: Files, files: Files)
    requires i < |writes| && Undone(files, before, original, writes[..i], 0)
    requires var landed := Write(original, writes[..i]);
      before == if a.Breaks? then Put(landed, writes[i].path, a.left) else landed
    ensures FailedAt(files, original, writes, i, a)
  {
    var landed := Write(original, writes[..i]);
    WriteDiffers(original, writes[..i]);
    assert writes[..i][..i] == writes[..i] && writes[..i][0..] == writes[..i];
    forall p
      ensures Held(files, p) == AfterFailure(original, writes, i, a, p)
    {
      assert Held(files, p) == if Hit(writes[..i], p) then Read(original, p) else Held(before, p);
      assert !Hit(writes[..i], p) ==> Held(landed, p) == Held(original, p);
    }
  }

  // ---------------------------------------------------------------- the job

  datatype Result = Applied(plan: Plan) | Failed

  class Job {
    var files: Files
    var cursor: nat

    constructor (files: Files, cursor: nat)
      ensures this.files == files && this.cursor == cursor
    {
      this.files, this.cursor := files, cursor;
    }

    method MakePlan(ops: seq<Operation>, catalogPath: Path, catalog: string) returns (plan: Plan)
      ensures plan == PlanOf(files, ops, catalogPath, catalog)
      ensures Remembers(files, plan.writes)
    {
      var oldCatalog := Read(files, catalogPath);
      plan := NO_PLAN;
      for i := 0 to |ops|
        invariant PlanOps(files, plan, ops[i..]) == PlanOps(files, NO_PLAN, ops)
      {
        assert ops[i..][0] == ops[i] && ops[i..][1..] == ops[i + 1..];
        match ops[i] {
          case Ignored(filename) =>
            plan := plan.(ignored := plan.ignored + [filename]);
          case Prepared(path, content) =>
            var before := Read(files, path);
            if Duplicate(before, content) {
              plan := plan.(duplicate := plan.duplicate + [path]);
            } else {
              plan := plan.(writes := plan.writes + [Pending(path, content, before)]);
              if before.None? {
                plan := plan.(created := plan.created + [path]);
              } else {
                plan := plan.(updated := plan.updated + [path]);
              }
              plan := plan.(changed := plan.changed + [path]);
            }
        }
      }
      PlanRemembers(files, NO_PLAN, ops);
      if oldCatalog != Some(catalog) {
        plan := plan.(writes := plan.writes + [Pending(catalogPath, catalog, oldCatalog)],
                      changed := plan.changed + [catalogPath]);
      }
    }

    /** The rollback: the writes done so far, undone last first. */
    method RollBack(written: seq<Pending>, ghost original: Files)
      requires Remembers(original, written)
      modifies this`files
      ensures Undone(files, old(files), original, written, 0)
    {
      var n: nat := |written|;
      while n > 0
        invariant n <= |written|
        invariant Undone(files, old(files), original, written, n)
      {
        n := n - 1;
        assert written[n] in written;
        UndoneMore(files, old(files), original, written, n);
        files := Put(files, written[n].path, written[n].before);
      }
    }

    /** The write i fails: what it leaves, and the rollback of those before it. */
    method GiveUp(writes: seq<Pending>, i: nat, a: Attempt, written: seq<Pending>, ghost original: Files)
      requires i < |writes| && Remembers(original, writes) && written == writes[..i] && !a.Lands?
      requires WrittenSoFar(files, original, writes, i)
      modifies this`files
      ensures FailedAt(files, original, writes, i, a)
    {
      if a.Breaks? {
        files := Put(files, writes[i].path, a.left);
      }
      ghost var before := files;
      RollBack(written, original);
      FailureUndone(original, writes, i, a, before, files);
    }

    /** The writing loop with its rollback. */
    method WriteAll(writes: seq<Pending>, attempt: nat -> Attempt) returns (ok: bool)
      requires Remembers(files, writes)
      modifies this`files
      ensures ok <==> Stop(attempt, |writes|) == |writes|
      ensures if ok then files == Write(old(files), writes)
              else var i := Stop(attempt, |writes|); FailedAt(files, old(files), writes, i, attempt(i))
    {
      var written: seq<Pending> := [];
      for i := 0 to |writes|
        invariant written == writes[..i] && WrittenSoFar(files, old(files), writes, i)
        invariant forall j :: 0 <= j < i ==> attempt(j).Lands?
      {
        var w, a := writes[i], attempt(i);
        if !a.Lands? {
          GiveUp(writes, i, a, written, old(files));
          return false;
        }
        WriteMore(files, old(files), writes, i);
        files := files[w.path := w.content];
        written := written + [w];
      }
      AllWritten(files, old(files), writes);
      ok := true;
    }

    /**
      `apply`.  Either every planned write lands and the cursor moves; or one fails, the cursor stays, and every file
      is as it was, but for the translation of line ends in the files restored and for what the failing write left.
     */
    method Apply(ops: seq<Operation>, catalogPath: Path, catalog: string, sourceSeq: nat, attempt: nat -> Attempt)
      returns (r: Result)
      modifies this
      ensures var plan := PlanOf(old(files), ops, catalogPath, catalog);
        var i := Stop(attempt, |plan.writes|);
        && (r.Failed? <==> i < |plan.writes|)
        && (r.Failed? ==> cursor == old(cursor) && FailedAt(files, old(files), plan.writes, i, attempt(i)))
        && (r.Applied? ==> r.plan == plan && files == Write(old(files), plan.writes) && cursor == sourceSeq)
    {
      var plan := MakePlan(ops, catalogPath, catalog);
      var ok := WriteAll(plan.writes, attempt);
      if !ok {
        return Failed;
      }
      cursor := sourceSeq;
      r := Applied(plan);
    }
  }

  // ---------------------------------------------------------------- a second run

  ghost predicate DifferentPaths(ops: seq<Operation>) {
    forall i, j :: 0 <= i < j < |ops| && ops[i].Prepared? && ops[j].Prepared? ==> ops[i].path != ops[j].path
  }

  /** The same candidate prepared again: the same file and an equivalent content. */
  predicate OpAgain(op: Operation, op': Operation) {
    match op
    case Ignored(_) => op'.Ignored?
    case Prepared(path, content) => op'.Prepared? && op'.path == path && Equivalent(content, op'.content)
  }

  ghost predicate Again(ops: seq<Operation>, ops': seq<Operation>) {
    |ops| == |ops'| && forall i :: 0 <= i < |ops| ==> OpAgain(ops[i], ops'[i])
  }

  /** Where the plan writes, and what. */
  lemma {:induction false} PlannedWrites(files: Files, plan: Plan, ops: seq<Operation>, w: Pending)
    ensures w in PlanOps(files, plan, ops).writes
       <==> w in plan.writes || (Prepared(w.path, w.content) in ops && w.before == Read(files, w.path)
                                 && !Duplicate(w.before, w.content))
    decreases |ops|
  {
    if ops != [] {
      PlannedWrites(files, PlanStep(files, plan, ops[0]), ops[1..], w);
      assert ops == [ops[0]] + ops[1..];
    }
  }

  lemma {:induction false} AllDuplicates(files: Files, plan: Plan, ops: seq<Operation>)
    requires forall op :: op in ops && op.Prepared? ==> Duplicate(Read(files, op.path), op.content)
    ensures PlanOps(files, plan, ops).writes == plan.writes
    decreases |ops|
  {
    if ops != [] {
      AllDuplicates(files, PlanStep(files, plan, ops[0]), ops[1..]);
    }
  }

  ghost predicate NotCatalog(ops: seq<Operation>, catalogPath: Path) {
    forall op :: op in ops && op.Prepared? ==> op.path != catalogPath
  }

  /** The candidate was on file already, or its content is equivalent to what reading it back gives. */
  predicate StaysOnFile(files: Files, op: Operation)
    requires op.Prepared?
  {
    Duplicate(Read(files, op.path), op.content) || Equivalent(ReadBack(op.content), op.content)
  }

  /**
    After a run over different files, the same candidates prepared again, with the same catalog, write nothing if and
    only if every content and the catalog stay what they are when read back.
   */
  lemma RepeatWritesNothingIff(files: Files, ops: seq<Operation>, ops': seq<Operation>, catalogPath: Path,
                               catalog: string)
    requires DifferentPaths(ops) && Again(ops, ops') && NotCatalog(ops, catalogPath)
    ensures var files' := Write(files, PlanOf(files, ops, catalogPath, catalog).writes);
      PlanOf(files', ops', catalogPath, catalog).writes == []
      <==> '\r' !in catalog && forall op :: op in ops && op.Prepared? ==> StaysOnFile(files, op)
  {
    var files' := Write(files, PlanOf(files, ops, catalogPath, catalog).writes);
    CatalogAfterRun(files, ops, catalogPath, catalog);
    ReadBackPlain(catalog);
    forall i | 0 <= i < |ops| && ops[i].Prepared?
      ensures ops'[i].Prepared?
      ensures Duplicate(Read(files', ops'[i].path), ops'[i].content) <==> StaysOnFile(files, ops[i])
    {
      FileAfterRun(files, ops, i, catalogPath, catalog);
      assert OpAgain(ops[i], ops'[i]);
    }
    assert forall i :: 0 <= i < |ops| ==> ops[i] in ops && ops'[i] in ops' && OpAgain(ops[i], ops'[i]);
    WritesNothingIff(files', ops');
  }

  /** A plan writes no memory if and only if every candidate is a duplicate. */
  lemma WritesNothingIff(files: Files, ops: seq<Operation>)
    ensures PlanOps(files, NO_PLAN, ops).writes == []
      <==> forall i :: 0 <= i < |ops| && ops[i].Prepared? ==> Duplicate(Read(files, ops[i].path), ops[i].content)
  {
    if forall i :: 0 <= i < |ops| && ops[i].Prepared? ==> Duplicate(Read(files, ops[i].path), ops[i].content) {
      AllDuplicates(files, NO_PLAN, ops);
    } else {
      var i :| 0 <= i < |ops| && ops[i].Prepared? && !Duplicate(Read(files, ops[i].path), ops[i].content);
      PlannedWrites(files, NO_PLAN, ops, Pending(ops[i].path, ops[i].content, Read(files, ops[i].path)));
    }
  }

  /** After the run a candidate's file reads as it did if that was a duplicate, else as its content reads back. */
  lemma FileAfterRun(files: Files, ops: seq<Operation>, i: nat, catalogPath: Path, catalog: string)
    requires DifferentPaths(ops) && NotCatalog(ops, catalogPath) && i < |ops| && ops[i].Prepared?
    ensures Held(Write(files, PlanOf(files, ops, catalogPath, catalog).writes), ops[i].path)
      == if Duplicate(Read(files, ops[i].path), ops[i].content) then Held(files, ops[i].path) else Some(ops[i].content)
  {
    assert ops[i] in ops;
    MemoryAfterRun(files, ops, i, PlanOps(files, NO_PLAN, ops).writes);
    CatalogLast(files, PlanOps(files, NO_PLAN, ops), ops, catalogPath, catalog, ops[i].path);
  }

  /** The catalog write comes last and leaves the other files alone. */
  lemma CatalogLast(files: Files, plan: Plan, ops: seq<Operation>, catalogPath: Path, catalog: string, path: Path)
    requires plan == PlanOps(files, NO_PLAN, ops) && path != catalogPath
    ensures Held(Write(files, PlanOf(files, ops, catalogPath, catalog).writes), path)
      == Held(Write(files, plan.writes), path)
  {
    var last := Pending(catalogPath, catalog, Read(files, catalogPath));
    assert (plan.writes + [last])[..|plan.writes|] == plan.writes;
  }

  lemma CatalogAfterRun(files: Files, ops: seq<Operation>, catalogPath: Path, catalog: string)
    requires NotCatalog(ops, catalogPath)
    ensures Read(Write(files, PlanOf(files, ops, catalogPath, catalog).writes), catalogPath) == Some(ReadBack(catalog))
  {
    var writes := PlanOf(files, ops, catalogPath, catalog).writes;
    if Read(files, catalogPath) == Some(catalog) {
      forall w | w in writes
        ensures w.path != catalogPath
      {
        PlannedWrites(files, NO_PLAN, ops, w);
      }
      UnwrittenStays(files, writes, catalogPath);
      assert Held(Write(files, writes), catalogPath) == Held(files, catalogPath);
      ReadBackPlain(files[catalogPath]);
      ReadBackPlain(catalog);
    }
  }

  lemma MemoryAfterRun(files: Files, ops: seq<Operation>, i: nat, writes: seq<Pending>)
    requires DifferentPaths(ops) && i < |ops| && ops[i].Prepared?
    requires writes == PlanOps(files, NO_PLAN, ops).writes
    ensures Held(Write(files, writes), ops[i].path)
      == if Duplicate(Read(files, ops[i].path), ops[i].content) then Held(files, ops[i].path) else Some(ops[i].content)
  {
    var path, content := ops[i].path, ops[i].content;
    forall w | w in writes && w.path == path
      ensures w.content == content && !Duplicate(Read(files, path), content)
    {
      PlannedWrites(files, NO_PLAN, ops, w);
      var j :| 0 <= j < |ops| && ops[j] == Prepared(w.path, w.content);
    }
    PlannedWrites(files, NO_PLAN, ops, Pending(path, content, Read(files, path)));
    if Hit(writes, path) {
      var k := LastTo(writes, path);
      assert writes[k] in writes;
      LastWriteLands(files, writes, k);
    } else {
      UnwrittenStays(files, writes, path);
    }
  }

  lemma {:induction false} LastTo(writes: seq<Pending>, path: Path) returns (k: nat)
    requires Hit(writes, path)
    ensures k < |writes| && writes[k].path == path && forall j :: k < j < |writes| ==> writes[j].path != path
    decreases |writes|
  {
    var n := |writes| - 1;
    if writes[n].path == path {
      k := n;
    } else {
      assert writes == writes[..n] + [writes[n]];
      k := LastTo(writes[..n], path);
    }
  }
}
