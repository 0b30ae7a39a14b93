/**
  What a memory says once the job has prepared it, field by field, and how the job reports what it did.
 */
module MemoryFields {
  import opened Wrappers
  import opened Text
  import opened Frontmatter
  import opened MemoryJob
  import opened MemoryCandidates

  // ---------------------------------------------------------------- the fields of a memory

  /** The given text, or the other one when it is missing or empty. */
  predicate Chosen(r: string, given: Option<string>, other: string) {
    if given.Some? && given.value != "" then r == given.value else r == other
  }

  /** What the file says now under this key, if there is a file that says something. */
  function OnFile(files: Files, path: Path, key: string): Option<string> {
    if path in files && key in Parse(ReadBack(files[path])) then Some(Parse(ReadBack(files[path]))[key]) else None
  }

  lemma KeptOver(files: Files, c: Candidate, key: string, other: string)
    ensures Chosen(Trim(Or(Get(Existing(files, c), key), other)), OnFile(files, PathOf(c), key), Trim(other))
  {
    ExistingReads(files, c);
  }

  const KEYS :=
    {"id", "category", "summary", "tags", "created_at", "updated_at", "source_session_id", "source_node_ids"}

  /** The eight entries and their values. */
  ghost predicate Says(m: map<string, string>, id: string, category: string, summary: string, created: string,
                       updated: string, session: string)
  {
    && m.Keys == KEYS
    && m["id"] == id && m["category"] == category && m["summary"] == summary && m["created_at"] == created
    && m["updated_at"] == updated && m["source_session_id"] == session
  }

  lemma MapSays(id: string, category: string, summary: string, created: string, updated: string, session: string)
    ensures Says(map["id" := id, "category" := category, "summary" := summary, "tags" := "", "created_at" := created,
                     "updated_at" := updated, "source_session_id" := session, "source_node_ids" := ""],
                 id, category, summary, created, updated, session)
  {
    assert "id"[0] != "category"[0] && "id"[0] != "summary"[0] && "id"[0] != "tags"[0];
    assert |"category"| == 8 && |"summary"| == 7 && |"tags"| == 4 && |"created_at"| == 10;
    assert "created_at"[0] != "updated_at"[0] && |"source_session_id"| == 17 && |"source_node_ids"| == 15;
  }

  /** What the job finds in a file that holds the prepared content. */
  lemma PreparedReads(files: Files, c: Candidate, session: Option<string>, now: string)
    requires Kept(c) && LocalMarkdown(c.filename) && OneLineFields(c) && OneLine(Shown(session)) && OneLine(now)
    ensures Says(Parse(ReadBack(Content(files, c, session, now))), Trim(MemoryId(c)), Trim(c.category),
                 Trim(SummaryOf(c)), Trim(Or(Get(Existing(files, c), "created_at"), now)), Trim(now),
                 Trim(Or(Get(Existing(files, c), "source_session_id"), Shown(session))))
    ensures Strip(ReadBack(Content(files, c, session, now))) == ReadBack(Body(c))
  {
    var existing := Existing(files, c);
    var created := Or(Get(existing, "created_at"), now);
    var origin := Or(Get(existing, "source_session_id"), Shown(session));
    ExistingReads(files, c);
    EntriesGood(c, existing, session, now);
    NamesOneLine(c);
    HeaderReadsBack(Entries(c, existing, session, now), Body(c));
    JobMemoryReads(MemoryId(c), c.category, SummaryOf(c), c.tags, created, now, origin, c.sources, ReadBack(Body(c)));
    MapSays(Trim(MemoryId(c)), Trim(c.category), Trim(SummaryOf(c)), Trim(created), Trim(now), Trim(origin));
  }

  /** The id is the one given, or the file's name without its ending, with the prefix once. */
  lemma IdExact(c: Candidate)
    requires LocalMarkdown(c.filename)
    ensures exists raw :: Named(c, raw) && MemoryId(c) == if "mem_" <= raw then raw else "mem_" + raw
  {
    assert Named(c, OrElse(c.memoryId, c.filename[..|c.filename| - 3]));
  }

  predicate Named(c: Candidate, raw: string)
    requires LocalMarkdown(c.filename)
  {
    Chosen(raw, c.memoryId, c.filename[..|c.filename| - 3])
  }

  /** The summary is the one given; else the first line of the body that says something; else the file's name. */
  predicate Summarised(c: Candidate, summary: string) {
    var line := FirstContentLine(SplitLines(Body(c)));
    Chosen(summary, c.summary, if line != "" then line else c.filename)
  }

  /**
    `_prepare_candidate`.  The file is named by category and file name.  The memory says under which id, in which
    category and with which summary it is kept, when it was prepared, and, carried over from the file where that says
    so, when and in which session it was created; behind that comes the candidate's own body.
   */
  lemma PreparedSays(files: Files, c: Candidate, session: Option<string>, now: string)
    returns (content: string, raw: string, summary: string, created: string, origin: string)
    requires Kept(c) && Preparable(c) && OneLineFields(c) && OneLine(Shown(session)) && OneLine(now)
    ensures Prepare(files, c, session, now) == Prepared(c.category + "/" + c.filename, content)
    ensures Says(Parse(ReadBack(content)), Trim(if "mem_" <= raw then raw else "mem_" + raw), c.category, Trim(summary),
                 created, Trim(now), origin)
    ensures Strip(ReadBack(content)) == ReadBack(Body(c)) && Named(c, raw) && Summarised(c, summary)
    ensures Chosen(created, OnFile(files, c.category + "/" + c.filename, "created_at"), Trim(now))
    ensures Chosen(origin, OnFile(files, c.category + "/" + c.filename, "source_session_id"),
                   Trim(if session.Some? then session.value else "None"))
  {
    IdExact(c);
    raw :| Named(c, raw) && MemoryId(c) == if "mem_" <= raw then raw else "mem_" + raw;
    summary := SummaryOf(c);
    content := Content(files, c, session, now);
    created := Trim(Or(Get(Existing(files, c), "created_at"), now));
    origin := Trim(Or(Get(Existing(files, c), "source_session_id"), Shown(session)));
    PreparedReads(files, c, session, now);
    KeptOver(files, c, "created_at", now);
    KeptOver(files, c, "source_session_id", Shown(session));
    CategoryTrims(c);
  }

  lemma CategoryTrims(c: Candidate)
    requires Kept(c)
    ensures Trim(c.category) == c.category
  {
    assert Trim("user") == "user" && Trim("feedback") == "feedback" && Trim("reference") == "reference";
  }

  /** A memory written again keeps the time of its first writing, whatever else has changed. */
  lemma CreatedOnce(files: Files, c: Candidate, c': Candidate, session: Option<string>, session': Option<string>,
                    now: string, now': string)
    requires Kept(c) && Preparable(c) && OneLineFields(c) && OneLine(Shown(session)) && OneLine(now)
    requires Kept(c') && Preparable(c') && OneLineFields(c') && OneLine(Shown(session')) && OneLine(now')
    requires PathOf(c') == PathOf(c) && Trim(now) != ""
    ensures var files' := files[PathOf(c) := Content(files, c, session, now)];
      var m := Parse(ReadBack(Content(files, c, session, now)));
      var m' := Parse(ReadBack(Content(files', c', session', now')));
      Get(m', "created_at") == Get(m, "created_at") && Get(m', "updated_at") == Trim(now')
  {
    var files' := files[PathOf(c) := Content(files, c, session, now)];
    var content, raw, summary, created, origin := PreparedSays(files, c, session, now);
    var content', raw', summary', created', origin' := PreparedSays(files', c', session', now');
    assert "created_at" in KEYS && "updated_at" in KEYS;
    assert OnFile(files', PathOf(c), "created_at") == Some(created);
  }

  lemma LinesFirst(e: Entry, data: seq<Entry>)
    ensures Lines([e] + data) == EntryLines(e) + Lines(data)
  {
    assert ([e] + data)[1..] == data;
  }

  lemma Group(x: string, y: string, z: string, w: string, items: seq<string>, rest: seq<string>)
    ensures [x] + ([y] + ([z] + (([w] + items) + rest))) == [x, y, z, w] + items + rest
  {
  }

  lemma Nested<T>(e: T, f: T, g: T, h: T, rest: seq<T>)
    ensures [e, f, g, h] + rest == [e] + ([f] + ([g] + ([h] + rest)))
  {
  }

  /** Three scalars and a list. */
  lemma FourLines(a: string, x: string, b: string, y: string, c: string, z: string, d: string, items: seq<string>,
                  data: seq<Entry>)
    ensures Lines([Entry(a, Scalar(x)), Entry(b, Scalar(y)), Entry(c, Scalar(z)), Entry(d, Items(items))] + data)
      == [a + ": " + x, b + ": " + y, c + ": " + z, d + ":"] + ItemLines(items) + Lines(data)
  {
    var e, f, g, h := Entry(a, Scalar(x)), Entry(b, Scalar(y)), Entry(c, Scalar(z)), Entry(d, Items(items));
    LinesFirst(h, data);
    LinesFirst(g, [h] + data);
    LinesFirst(f, [g] + ([h] + data));
    LinesFirst(e, [f] + ([g] + ([h] + data)));
    Nested(e, f, g, h, data);
    Group(a + ": " + x, b + ": " + y, c + ": " + z, d + ":", ItemLines(items), Lines(data));
  }

  /** The header as it is printed: every field on its line, every tag and every source on its own. */
  lemma HeaderText(id: string, category: string, summary: string, tags: seq<string>, created: string,
                   updated: string, session: string, sources: seq<string>)
    ensures Lines(JobEntries(id, category, summary, tags, created, updated, session, sources))
      == ["id: " + id, "category: " + category, "summary: " + summary, "tags:"] + ItemLines(tags)
         + ["created_at: " + created, "updated_at: " + updated, "source_session_id: " + session, "source_node_ids:"]
         + ItemLines(sources)
  {
    var origin := Origin(created, updated, session, sources);
    FourLines("id", id, "category", category, "summary", summary, "tags", tags, origin);
    FourLines("created_at", created, "updated_at", updated, "source_session_id", session, "source_node_ids", sources,
              []);
    assert origin + [] == origin;
    KeyTexts();
    Sequel(["id: " + id, "category: " + category, "summary: " + summary, "tags:"], ItemLines(tags),
           ["created_at: " + created, "updated_at: " + updated, "source_session_id: " + session, "source_node_ids:"],
           ItemLines(sources));
  }

  lemma Sequel(a: seq<string>, b: seq<string>, c: seq<string>, d: seq<string>)
    ensures a + b + (c + d + []) == a + b + c + d
  {
  }

  lemma KeyTexts()
    ensures "id" + ": " == "id: " && "category" + ": " == "category: " && "summary" + ": " == "summary: "
    ensures "created_at" + ": " == "created_at: " && "updated_at" + ": " == "updated_at: "
    ensures "source_session_id" + ": " == "source_session_id: "
    ensures "tags" + ":" == "tags:" && "source_node_ids" + ":" == "source_node_ids:"
  {
  }

  /** A list field prints one item a line, indented. */
  lemma {:induction false} ItemsText(items: seq<string>)
    ensures |ItemLines(items)| == |items|
    ensures forall i :: 0 <= i < |items| ==> ItemLines(items)[i] == "  - " + items[i]
    decreases |items|
  {
    if items != [] {
      ItemsText(items[1..]);
    }
  }

  /** The memory's text: the fenced header, with the candidate's own tags and sources, and the body behind it. */
  lemma ContentText(files: Files, c: Candidate, session: Option<string>, now: string)
    returns (header: seq<string>, created: string, origin: string)
    requires LocalMarkdown(c.filename)
    ensures Content(files, c, session, now) == Join(["---"] + header + ["---", ""]) + Body(c)
    ensures header == ["id: " + MemoryId(c), "category: " + c.category, "summary: " + SummaryOf(c), "tags:"]
      + ItemLines(c.tags)
      + ["created_at: " + created, "updated_at: " + now, "source_session_id: " + origin, "source_node_ids:"]
      + ItemLines(c.sources)
  {
    created := Or(Get(Existing(files, c), "created_at"), now);
    origin := Or(Get(Existing(files, c), "source_session_id"), Shown(session));
    HeaderText(MemoryId(c), c.category, SummaryOf(c), c.tags, created, now, origin, c.sources);
    header := Lines(Entries(c, Existing(files, c), session, now));
  }

  // ---------------------------------------------------------------- the summary

  /** A line without the marks of a heading. */
  function Bare(line: string): string { Trim(TrimHashes(Trim(line))) }

  lemma {:induction false} TrimHashesExact(s: string)
    ensures TrimHashes(s) == "" || TrimHashes(s)[0] != '#'
    ensures |TrimHashes(s)| <= |s| && s[|s| - |TrimHashes(s)|..] == TrimHashes(s)
    ensures forall i :: 0 <= i < |s| - |TrimHashes(s)| ==> s[i] == '#'
    decreases |s|
  {
    if s != [] && s[0] == '#' {
      TrimHashesExact(s[1..]);
    }
  }

  predicate FirstBare(lines: seq<string>, i: nat)
    requires i < |lines|
  {
    Bare(lines[i]) != "" && forall j :: 0 <= j < i ==> Bare(lines[j]) == ""
  }

  lemma {:induction false} NothingBare(lines: seq<string>)
    ensures FirstContentLine(lines) == "" <==> forall i :: 0 <= i < |lines| ==> Bare(lines[i]) == ""
    decreases |lines|
  {
    if lines != [] {
      var rest := lines[1..];
      NothingBare(rest);
      forall i | 0 < i < |lines|
        ensures lines[i] == rest[i - 1]
      {
      }
    }
  }

  /** The summary of a memory without one: its first line that says something, up to 120 characters. */
  lemma {:induction false} FirstContentLineExact(lines: seq<string>, i: nat)
    requires i < |lines| && FirstBare(lines, i)
    ensures FirstContentLine(lines) <= Bare(lines[i])
    ensures |FirstContentLine(lines)| == if |Bare(lines[i])| <= 120 then |Bare(lines[i])| else 120
    decreases |lines|
  {
    if i > 0 {
      var rest := lines[1..];
      assert Bare(lines[0]) == "";
      assert forall j :: 0 <= j < i ==> rest[j] == lines[j + 1];
      FirstContentLineExact(rest, i - 1);
    }
  }

  /** The body is the content, without a header block of its own and without white space in front. */
  lemma BodyExact(c: Candidate, data: seq<Entry>, body: string)
    ensures !("---\n" <= c.content) ==> Body(c) == TrimLeft(c.content)
    ensures GoodData(data) && c.content == Print(data) + body ==> Body(c) == TrimLeft(body)
  {
    if GoodData(data) && c.content == Print(data) + body {
      StripPrint(data, body);
    }
  }

  // ---------------------------------------------------------------- the report

  function NameOf(op: Operation): string { if op.Prepared? then op.path else op.filename }

  /** The names of the operations picked, in their order: paths, or the file names of ignored candidates. */
  function Picked(ops: seq<Operation>, pick: Operation -> bool): seq<string> {
    if ops == [] then []
    else
      (if pick(ops[0]) then [NameOf(ops[0])] else []) + Picked(ops[1..], pick)
  }

  /** The file is there and already holds this memory, or one that differs in stamps and list entries only. */
  predicate Already(files: Files, op: Operation) {
    op.Prepared? && op.path in files &&
    (ReadBack(files[op.path]) == op.content || Equivalent(ReadBack(files[op.path]), op.content))
  }

  predicate Adds(files: Files, op: Operation) { op.Prepared? && op.path !in files }

  predicate Alters(files: Files, op: Operation) { op.Prepared? && op.path in files && !Already(files, op) }

  predicate Touches(files: Files, op: Operation) { op.Prepared? && !Already(files, op) }

  /** What the plan reports is what it held before, followed by what the operations add. */
  ghost predicate Reported(files: Files, before: Plan, ops: seq<Operation>, plan: Plan) {
    && plan.created == before.created + Picked(ops, op => Adds(files, op))
    && plan.updated == before.updated + Picked(ops, op => Alters(files, op))
    && plan.duplicate == before.duplicate + Picked(ops, op => Already(files, op))
    && plan.ignored == before.ignored + Picked(ops, (op: Operation) => op.Ignored?)
    && plan.changed == before.changed + Picked(ops, op => Touches(files, op))
  }

  lemma Joined(a: seq<string>, b: seq<string>, c: seq<string>)
    ensures a + b + c == a + (b + c)
  {
  }

  lemma PickedFirst(ops: seq<Operation>, pick: Operation -> bool, before: seq<string>, mid: seq<string>,
                    after: seq<string>)
    requires ops != [] && after == mid + Picked(ops[1..], pick)
    requires mid == before + (if pick(ops[0]) then [NameOf(ops[0])] else [])
    ensures after == before + Picked(ops, pick)
  {
    Joined(before, if pick(ops[0]) then [NameOf(ops[0])] else [],
           Picked(ops[1..], pick));
  }

  /** The job reports exactly what it creates, updates, leaves alone and ignores, in the order of the candidates. */
  lemma {:induction false} PlanReports(files: Files, plan: Plan, ops: seq<Operation>)
    ensures Reported(files, plan, ops, PlanOps(files, plan, ops))
    decreases |ops|
  {
    if ops == [] {
      assert plan.created + [] == plan.created && plan.updated + [] == plan.updated;
      assert plan.duplicate + [] == plan.duplicate && plan.ignored + [] == plan.ignored;
      assert plan.changed + [] == plan.changed;
    } else {
      var mid := PlanStep(files, plan, ops[0]);
      var end := PlanOps(files, mid, ops[1..]);
      PlanReports(files, mid, ops[1..]);
      ReportedFirst(files, plan, ops, mid, end);
    }
  }

  lemma StepReports(files: Files, plan: Plan, op: Operation)
    ensures var mid := PlanStep(files, plan, op);
      var name := NameOf(op);
      && mid.created == plan.created + (if Adds(files, op) then [name] else [])
      && mid.updated == plan.updated + (if Alters(files, op) then [name] else [])
      && mid.duplicate == plan.duplicate + (if Already(files, op) then [name] else [])
      && mid.ignored == plan.ignored + (if op.Ignored? then [name] else [])
      && mid.changed == plan.changed + (if Touches(files, op) then [name] else [])
  {
    assert plan.created + [] == plan.created && plan.updated + [] == plan.updated;
    assert plan.duplicate + [] == plan.duplicate && plan.ignored + [] == plan.ignored;
    assert plan.changed + [] == plan.changed;
  }

  lemma ReportedFirst(files: Files, plan: Plan, ops: seq<Operation>, mid: Plan, end: Plan)
    requires ops != [] && mid == PlanStep(files, plan, ops[0]) && Reported(files, mid, ops[1..], end)
    ensures Reported(files, plan, ops, end)
  {
    StepReports(files, plan, ops[0]);
    PickedFirst(ops, op => Adds(files, op), plan.created, mid.created, end.created);
    PickedFirst(ops, op => Alters(files, op), plan.updated, mid.updated, end.updated);
    PickedFirst(ops, op => Already(files, op), plan.duplicate, mid.duplicate, end.duplicate);
    PickedFirst(ops, (op: Operation) => op.Ignored?, plan.ignored, mid.ignored, end.ignored);
    PickedFirst(ops, op => Touches(files, op), plan.changed, mid.changed, end.changed);
  }
}
