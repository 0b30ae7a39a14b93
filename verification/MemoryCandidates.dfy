/**
  What the memory job makes of a candidate: the file it goes to and the memory it is to hold, which carries over what
  the file already says about when and in which session it was created.
 */
module MemoryCandidates {
  import opened Wrappers
  import opened Text
  import opened Frontmatter
  import opened MemoryJob

  datatype Candidate = Candidate(
    category: string,
    filename: string,
    content: string,
    sources: seq<string>,
    memoryId: Option<string>,
    summary: Option<string>,
    tags: seq<string>)

  /** `or` on texts: the first one unless it is empty. */
  function Or(a: string, b: string): string { if a != "" then a else b }

  function OrElse(a: Option<string>, b: string): string { if a.Some? then Or(a.value, b) else b }

  /** What a session id prints as; a missing one prints as the word. */
  function Shown(session: Option<string>): string { if session.Some? then session.value else "None" }

  predicate Kept(c: Candidate) { c.category == "user" || c.category == "feedback" || c.category == "reference" }

  predicate LocalMarkdown(filename: string) {
    '/' !in filename && |filename| >= 3 && filename[|filename| - 3..] == ".md"
  }

  /** The candidates that raise no error: they name a source, and a markdown file in place if they are kept. */
  predicate Preparable(c: Candidate) {
    c.sources != [] && (Kept(c) ==> LocalMarkdown(c.filename))
  }

  function MemoryId(c: Candidate): string
    requires LocalMarkdown(c.filename)
  {
    var id := OrElse(c.memoryId, c.filename[..|c.filename| - 3]);
    if "mem_" <= id then id else "mem_" + id
  }

  function Body(c: Candidate): string { TrimLeft(Strip(c.content)) }

  function TrimHashes(s: string): string {
    if s != [] && s[0] == '#' then TrimHashes(s[1..]) else s
  }

  /** `_first_content_line`; empty when there is none. */
  function FirstContentLine(lines: seq<string>): string {
    if lines == [] then ""
    else
      var stripped := Trim(TrimHashes(Trim(lines[0])));
      if stripped == "" then FirstContentLine(lines[1..])
      else if |stripped| > 120 then stripped[..120]
      else stripped
  }

  function SummaryOf(c: Candidate): string {
    OrElse(c.summary, Or(FirstContentLine(SplitLines(Body(c))), c.filename))
  }

  function PathOf(c: Candidate): Path { c.category + "/" + c.filename }

  const CATALOG_PATH := "MEMORY.md"

  function Naming(id: string, category: string, summary: string, tags: seq<string>): seq<Entry> {
    [Entry("id", Scalar(id)), Entry("category", Scalar(category)), Entry("summary", Scalar(summary)),
     Entry("tags", Items(tags))]
  }

  function Origin(created: string, updated: string, session: string, sources: seq<string>): seq<Entry> {
    [Entry("created_at", Scalar(created)), Entry("updated_at", Scalar(updated)),
     Entry("source_session_id", Scalar(session)), Entry("source_node_ids", Items(sources))]
  }

  /** The eight entries of a memory, in the order they are printed. */
  function JobEntries(id: string, category: string, summary: string, tags: seq<string>, created: string,
                      updated: string, session: string, sources: seq<string>): seq<Entry>
  {
    Naming(id, category, summary, tags) + Origin(created, updated, session, sources)
  }

  function Get(m: map<string, string>, key: string): string { if key in m then m[key] else "" }

  /** What the candidate's file says now. */
  function Existing(files: Files, c: Candidate): map<string, string> {
    if PathOf(c) in files then Parse(ReadBack(files[PathOf(c)])) else map[]
  }

  function Entries(c: Candidate, existing: map<string, string>, session: Option<string>, now: string): seq<Entry>
    requires LocalMarkdown(c.filename)
  {
    JobEntries(MemoryId(c), c.category, SummaryOf(c), c.tags, Or(Get(existing, "created_at"), now), now,
               Or(Get(existing, "source_session_id"), Shown(session)), c.sources)
  }

  function Content(files: Files, c: Candidate, session: Option<string>, now: string): string
    requires LocalMarkdown(c.filename)
  {
    Print(Entries(c, Existing(files, c), session, now)) + Body(c)
  }

  /** `_prepare_candidate`. */
  function Prepare(files: Files, c: Candidate, session: Option<string>, now: string): Operation
    requires Preparable(c)
  {
    if Kept(c) then Prepared(PathOf(c), Content(files, c, session, now)) else Ignored(c.filename)
  }

  predicate AllPreparable(cs: seq<Candidate>) { forall c :: c in cs ==> Preparable(c) }

  /** `clock` tells the time at which each candidate is prepared. */
  function PrepareAll(files: Files, cs: seq<Candidate>, session: Option<string>, clock: nat -> string): seq<Operation>
    requires AllPreparable(cs)
  {
    seq(|cs|, i requires 0 <= i < |cs| => Prepare(files, cs[i], session, clock(i)))
  }

  /** A line of the catalog that stems from a candidate. */
  datatype Row = Row(id: string, category: string, summary: string, path: Path)

  function Rows(cs: seq<Candidate>): seq<Row>
    requires AllPreparable(cs)
  {
    if cs == [] then []
    else
      var c := cs[0];
      assert c in cs;
      (if Kept(c) then [Row(MemoryId(c), c.category, SummaryOf(c), PathOf(c))] else []) + Rows(cs[1..])
  }

  predicate Targeted(cs: seq<Candidate>, path: Path) {
    exists c :: c in cs && Kept(c) && PathOf(c) == path
  }

  /** The memories no candidate is written to, as they are read. */
  function Others(files: Files, cs: seq<Candidate>): Files {
    map path | path in files && path != CATALOG_PATH && !Targeted(cs, path) :: ReadBack(files[path])
  }

  /** The catalog comes from the memories no candidate is written to and the candidates' rows; how is left open. */
  function Catalog(files: Files, cs: seq<Candidate>, render: (Files, seq<Row>) -> string): string
    requires AllPreparable(cs)
  {
    render(Others(files, cs), Rows(cs))
  }

  /** The plan of one run. */
  function RunPlan(files: Files, cs: seq<Candidate>, session: Option<string>, clock: nat -> string,
                   render: (Files, seq<Row>) -> string): Plan
    requires AllPreparable(cs)
  {
    PlanOf(files, PrepareAll(files, cs, session, clock), CATALOG_PATH, Catalog(files, cs, render))
  }

  // ---------------------------------------------------------------- the eight entries

  lemma PlainKeysGood()
    ensures GoodKey("id") && GoodKey("category") && GoodKey("summary") && GoodKey("tags")
  {
    WordIsGoodKey("id");
    WordIsGoodKey("category");
    WordIsGoodKey("summary");
    WordIsGoodKey("tags");
  }

  lemma StampKeysGood()
    ensures GoodKey("created_at") && GoodKey("updated_at")
  {
    WordIsGoodKey("created_at");
    WordIsGoodKey("updated_at");
  }

  lemma SourceKeysGood()
    ensures GoodKey("source_session_id") && GoodKey("source_node_ids")
  {
    WordIsGoodKey("source_session_id");
    WordIsGoodKey("source_node_ids");
  }

  /** One-line fields make printable entries. */
  lemma JobEntriesGood(id: string, category: string, summary: string, tags: seq<string>, created: string,
                       updated: string, session: string, sources: seq<string>)
    requires OneLine(id) && OneLine(category) && OneLine(summary) && OneLine(created) && OneLine(updated)
      && OneLine(session)
    requires AllOneLine(tags) && AllOneLine(sources)
    ensures GoodData(JobEntries(id, category, summary, tags, created, updated, session, sources))
  {
    NamingGood(id, category, summary, tags);
    OriginGood(created, updated, session, sources);
  }

  lemma NamingGood(id: string, category: string, summary: string, tags: seq<string>)
    requires OneLine(id) && OneLine(category) && OneLine(summary) && AllOneLine(tags)
    ensures forall e :: e in Naming(id, category, summary, tags) ==> GoodEntry(e)
  {
    PlainKeysGood();
  }

  lemma OriginGood(created: string, updated: string, session: string, sources: seq<string>)
    requires OneLine(created) && OneLine(updated) && OneLine(session) && AllOneLine(sources)
    ensures forall e :: e in Origin(created, updated, session, sources) ==> GoodEntry(e)
  {
    StampKeysGood();
    SourceKeysGood();
  }

  /** Both directions for what the job writes: the body comes back exactly, and the fields trimmed. */
  lemma JobMemoryReads(id: string, category: string, summary: string, tags: seq<string>, created: string,
                       updated: string, session: string, sources: seq<string>, body: string)
    requires OneLine(id) && OneLine(category) && OneLine(summary) && OneLine(created) && OneLine(updated)
      && OneLine(session)
    requires AllOneLine(tags) && AllOneLine(sources)
    ensures var text := Print(JobEntries(id, category, summary, tags, created, updated, session, sources)) + body;
      && Strip(text) == body
      && Parse(text) == map["id" := Trim(id), "category" := Trim(category), "summary" := Trim(summary), "tags" := "",
                            "created_at" := Trim(created), "updated_at" := Trim(updated),
                            "source_session_id" := Trim(session), "source_node_ids" := ""]
  {
    var data := JobEntries(id, category, summary, tags, created, updated, session, sources);
    JobEntriesGood(id, category, summary, tags, created, updated, session, sources);
    StripPrint(data, body);
    ParsePrint(data, body);
    FirstFour(map[], data);
    LastFour(Metadata4(map[], data), data[4..]);
  }

  function Metadata4(acc: map<string, string>, data: seq<Entry>): map<string, string>
    requires |data| >= 4
  {
    acc[data[0].key := Meaning(data[0].value)][data[1].key := Meaning(data[1].value)]
       [data[2].key := Meaning(data[2].value)][data[3].key := Meaning(data[3].value)]
  }

  lemma FirstFour(acc: map<string, string>, data: seq<Entry>)
    requires |data| >= 4
    ensures Metadata(acc, data) == Metadata(Metadata4(acc, data), data[4..])
  {
    var a := acc[data[0].key := Meaning(data[0].value)];
    var b := a[data[1].key := Meaning(data[1].value)];
    var c := b[data[2].key := Meaning(data[2].value)];
    MetadataFirst(acc, data, 0);
    MetadataFirst(a, data, 1);
    MetadataFirst(b, data, 2);
    MetadataFirst(c, data, 3);
    assert data[0..] == data;
  }

  lemma MetadataFirst(acc: map<string, string>, data: seq<Entry>, i: nat)
    requires i < |data|
    ensures Metadata(acc, data[i..]) == Metadata(acc[data[i].key := Meaning(data[i].value)], data[i + 1..])
  {
    assert data[i..][0] == data[i] && data[i..][1..] == data[i + 1..];
  }

  lemma LastFour(acc: map<string, string>, data: seq<Entry>)
    requires |data| == 4
    ensures Metadata(acc, data) == Metadata4(acc, data)
  {
    FirstFour(acc, data);
  }

  // ---------------------------------------------------------------- what is carried over

  /** What is read is on one line and trimmed. */
  ghost predicate ReadValues(m: map<string, string>) {
    forall k :: k in m ==> OneLine(m[k]) && Trim(m[k]) == m[k]
  }

  lemma ParseLineReads(m: map<string, string>, line: string)
    requires ReadValues(m) && OneLine(line)
    ensures ReadValues(ParseLine(m, line))
  {
    var colon := IndexOf(line, ':', 0);
    if colon < |line| {
      TrimTrims(line[colon + 1..]);
    }
  }

  lemma {:induction false} ParseLinesRead(m: map<string, string>, lines: seq<string>)
    requires ReadValues(m) && AllOneLine(lines)
    ensures ReadValues(ParseLines(m, lines))
    decreases |lines|
  {
    if lines != [] {
      ParseLineReads(m, lines[0]);
      ParseLinesRead(ParseLine(m, lines[0]), lines[1..]);
    }
  }

  /** Every value read from any text is on one line and trimmed. */
  lemma ParseReads(text: string)
    ensures ReadValues(Parse(text))
  {
    var end := Find(text, "\n---", 4);
    if "---\n" <= text && end.Some? {
      SplitOneLine(text[4..end.value]);
      ParseLinesRead(map[], SplitLines(text[4..end.value]));
    }
  }

  lemma ExistingReads(files: Files, c: Candidate)
    ensures ReadValues(Existing(files, c))
  {
    if PathOf(c) in files {
      ParseReads(ReadBack(files[PathOf(c)]));
    }
  }

  /** No field of the candidate that goes into the header contains a line break. */
  predicate OneLineFields(c: Candidate) {
    && OneLine(c.filename) && AllOneLine(c.tags) && AllOneLine(c.sources)
    && (c.memoryId.Some? ==> OneLine(c.memoryId.value)) && (c.summary.Some? ==> OneLine(c.summary.value))
  }

  lemma {:induction false} ContentLineOneLine(lines: seq<string>)
    requires AllOneLine(lines)
    ensures OneLine(FirstContentLine(lines))
    decreases |lines|
  {
    if lines != [] {
      assert lines[0] in lines;
      TrimTrims(lines[0]);
      TrimHashesOneLine(Trim(lines[0]));
      TrimTrims(TrimHashes(Trim(lines[0])));
      ContentLineOneLine(lines[1..]);
    }
  }

  lemma {:induction false} TrimHashesOneLine(s: string)
    requires OneLine(s)
    ensures OneLine(TrimHashes(s))
  {
    if s != [] && s[0] == '#' {
      TrimHashesOneLine(s[1..]);
    }
  }

  lemma SummaryOneLine(c: Candidate)
    requires OneLineFields(c)
    ensures OneLine(SummaryOf(c))
  {
    SplitOneLine(Body(c));
    ContentLineOneLine(SplitLines(Body(c)));
  }

  lemma MemoryIdOneLine(c: Candidate)
    requires LocalMarkdown(c.filename) && OneLineFields(c)
    ensures OneLine(MemoryId(c))
  {
    OneLineAppend("mem_", OrElse(c.memoryId, c.filename[..|c.filename| - 3]));
  }

  lemma CategoryOneLine(c: Candidate)
    requires Kept(c)
    ensures OneLine(c.category)
  {
  }

  lemma NamesOneLine(c: Candidate)
    requires Kept(c) && LocalMarkdown(c.filename) && OneLineFields(c)
    ensures OneLine(MemoryId(c)) && OneLine(c.category) && OneLine(SummaryOf(c))
  {
    MemoryIdOneLine(c);
    CategoryOneLine(c);
    SummaryOneLine(c);
  }

  /** A run whose candidates, session and clock print on one line. */
  ghost predicate PlainRun(cs: seq<Candidate>, session: Option<string>, clock: nat -> string) {
    && AllPreparable(cs) && (forall c :: c in cs ==> OneLineFields(c))
    && OneLine(Shown(session)) && (forall i :: OneLine(clock(i)))
  }

  lemma EntriesGood(c: Candidate, existing: map<string, string>, session: Option<string>, now: string)
    requires Kept(c) && LocalMarkdown(c.filename) && OneLineFields(c) && ReadValues(existing)
    requires OneLine(Shown(session)) && OneLine(now)
    ensures GoodData(Entries(c, existing, session, now))
  {
    NamesOneLine(c);
    JobEntriesGood(MemoryId(c), c.category, SummaryOf(c), c.tags, Or(Get(existing, "created_at"), now), now,
                   Or(Get(existing, "source_session_id"), Shown(session)), c.sources);
  }

  /** The texts read alike up to their stamps, whatever their bodies. */
  predicate SameHeader(text: string, content: string) { Parse(text) - VOLATILE == Parse(content) - VOLATILE }

  /** A file with the header of a prepared content names the session the content names. */
  lemma SessionOnFile(c: Candidate, existing: map<string, string>, session: Option<string>, now: string, text: string)
    requires Kept(c) && LocalMarkdown(c.filename) && OneLineFields(c) && ReadValues(existing)
    requires OneLine(Shown(session)) && OneLine(now)
    requires SameHeader(text, Print(Entries(c, existing, session, now)) + Body(c))
    ensures Get(Parse(text), "source_session_id") == Trim(Or(Get(existing, "source_session_id"), Shown(session)))
  {
    var content := Print(Entries(c, existing, session, now)) + Body(c);
    NamesOneLine(c);
    JobMemoryReads(MemoryId(c), c.category, SummaryOf(c), c.tags, Or(Get(existing, "created_at"), now), now,
                   Or(Get(existing, "source_session_id"), Shown(session)), c.sources, Body(c));
    NotVolatile(Parse(text), Parse(content), "source_session_id");
  }

  lemma NotVolatile(m: map<string, string>, m': map<string, string>, key: string)
    requires |key| > 10
    ensures m - VOLATILE == m' - VOLATILE ==> Get(m, key) == Get(m', key)
  {
    assert |"created_at"| == 10 && |"updated_at"| == 10;
    assert key in m - VOLATILE <==> key in m;
    assert key in m' - VOLATILE <==> key in m';
  }

  /** The session named first is named again, unless it was blank and another one is given. */
  lemma CarriedOver(kept: string, session: string, session': string)
    requires Trim(kept) == kept && (session' == session || Trim(session) != "")
    ensures Trim(Or(Trim(Or(kept, session)), session')) == Trim(Or(kept, session))
  {
    TrimTrims(Or(kept, session));
  }

  /** The candidates agree but for their tags and sources. */
  predicate SameButLists(c: Candidate, c': Candidate) {
    c' == c.(tags := c'.tags, sources := c'.sources)
  }

  lemma SameEntries(c: Candidate, c': Candidate, existing: map<string, string>, existing': map<string, string>,
                    session: Option<string>, session': Option<string>, now: string, now': string)
    requires LocalMarkdown(c.filename) && SameButLists(c, c')
    requires Trim(Or(Get(existing', "source_session_id"), Shown(session')))
          == Trim(Or(Get(existing, "source_session_id"), Shown(session)))
    ensures Restamped(Entries(c, existing, session, now), Entries(c', existing', session', now'))
  {
    FieldsRestamped(MemoryId(c), c.category, SummaryOf(c), c.tags, c'.tags, Or(Get(existing, "created_at"), now), now,
                    Or(Get(existing', "created_at"), now'), now',
                    Or(Get(existing, "source_session_id"), Shown(session)),
                    Or(Get(existing', "source_session_id"), Shown(session')), c.sources, c'.sources);
  }

  lemma FieldsRestamped(id: string, category: string, summary: string, tags: seq<string>, tags': seq<string>,
                        created: string, updated: string, created': string, updated': string, session: string,
                        session': string, sources: seq<string>, sources': seq<string>)
    requires Trim(session') == Trim(session)
    ensures Restamped(JobEntries(id, category, summary, tags, created, updated, session, sources),
                      JobEntries(id, category, summary, tags', created', updated', session', sources'))
  {
  }

  /** Preparing a memory whose header is on file gives an equivalent one. */
  lemma PreparedAgain(files: Files, files': Files, c: Candidate, c': Candidate, session: Option<string>,
                      session': Option<string>, now: string, now': string)
    requires Kept(c) && LocalMarkdown(c.filename) && SameButLists(c, c') && OneLineFields(c) && OneLineFields(c')
    requires OneLine(Shown(session)) && OneLine(Shown(session')) && OneLine(now) && OneLine(now')
    requires session' == session || Trim(Shown(session)) != ""
    requires PathOf(c) in files' && SameHeader(ReadBack(files'[PathOf(c)]), Content(files, c, session, now))
    ensures Equivalent(Content(files, c, session, now), Content(files', c', session', now'))
  {
    var existing, existing' := Existing(files, c), Existing(files', c');
    ExistingReads(files, c);
    ExistingReads(files', c');
    EntriesGood(c, existing, session, now);
    EntriesGood(c', existing', session', now');
    SessionOnFile(c, existing, session, now, ReadBack(files'[PathOf(c)]));
    KeptTrimmed(existing, "source_session_id");
    CarriedOver(Get(existing, "source_session_id"), Shown(session), Shown(session'));
    SameEntries(c, c', existing, existing', session, session', now, now');
    RestampedEquivalent(Entries(c, existing, session, now), Entries(c', existing', session', now'), Body(c));
  }

  lemma KeptTrimmed(m: map<string, string>, key: string)
    requires ReadValues(m)
    ensures Trim(Get(m, key)) == Get(m, key)
  {
  }

  // ---------------------------------------------------------------- what reading back makes of a memory

  lemma {:induction false} JoinNoReturn(lines: seq<string>)
    requires AllOneLine(lines)
    ensures '\r' !in Join(lines)
    decreases |lines|
  {
    if |lines| > 1 {
      JoinNoReturn(lines[1..]);
    }
    if lines != [] {
      assert lines[0] in lines;
    }
  }

  /** The printed header holds no carriage return, so only the body is translated. */
  lemma HeaderReadsBack(data: seq<Entry>, body: string)
    requires GoodData(data)
    ensures ReadBack(Print(data) + body) == Print(data) + ReadBack(body)
  {
    LinesBlock(data);
    PrintShape(data, "");
    JoinNoReturn(Lines(data));
    assert Print(data) + "" == Print(data);
    ReadBackPlain(Print(data));
    ReadBackAfter(Print(data), body);
  }

  /** A memory is equivalent to what reading it back gives if and only if its trimmed body holds no carriage return. */
  lemma ReadsBackEquivalentIff(data: seq<Entry>, body: string)
    requires GoodData(data)
    ensures SameHeader(ReadBack(Print(data) + body), Print(data) + body)
    ensures Equivalent(ReadBack(Print(data) + body), Print(data) + body) <==> '\r' !in Trim(body)
  {
    HeaderReadsBack(data, body);
    ParsePrint(data, body);
    ParsePrint(data, ReadBack(body));
    EquivalentIff(data, ReadBack(body), data, body);
    TrimReadBack(body);
  }

  lemma {:induction false} StripChars(text: string)
    ensures forall c :: c in Strip(text) ==> c in text
  {
  }

  /** What reading a file gives is never equivalent to a memory with a carriage return in its trimmed body. */
  lemma DuplicateNoReturn(text: string, data: seq<Entry>, body: string)
    requires GoodData(data) && Duplicate(Some(ReadBack(text)), Print(data) + body)
    ensures '\r' !in Trim(body)
  {
    ReadBackPlain(text);
    StripPrint(data, body);
    StripChars(ReadBack(text));
    TrimTrims(Strip(ReadBack(text)));
  }

  /** Whether a kept candidate's memory stays on file. */
  lemma StaysIff(files: Files, c: Candidate, session: Option<string>, now: string)
    requires Kept(c) && Preparable(c) && OneLineFields(c) && OneLine(Shown(session)) && OneLine(now)
    ensures StaysOnFile(files, Prepare(files, c, session, now)) <==> '\r' !in Trim(Body(c))
  {
    var data := Entries(c, Existing(files, c), session, now);
    ExistingReads(files, c);
    EntriesGood(c, Existing(files, c), session, now);
    ReadsBackEquivalentIff(data, Body(c));
    if Duplicate(Read(files, PathOf(c)), Print(data) + Body(c)) {
      DuplicateNoReturn(files[PathOf(c)], data, Body(c));
    }
  }

  /** After a run the file of a kept candidate has the header that was prepared, written or not. */
  lemma HeaderOnFile(files: Files, c: Candidate, session: Option<string>, now: string, held: string)
    requires Kept(c) && Preparable(c) && OneLineFields(c) && OneLine(Shown(session)) && OneLine(now)
    requires var content := Content(files, c, session, now);
      if Duplicate(Read(files, PathOf(c)), content) then held == files[PathOf(c)] else held == content
    ensures SameHeader(ReadBack(held), Content(files, c, session, now))
  {
    ExistingReads(files, c);
    EntriesGood(c, Existing(files, c), session, now);
    ReadsBackEquivalentIff(Entries(c, Existing(files, c), session, now), Body(c));
  }

  // ---------------------------------------------------------------- a second run

  /** The kept candidates go to different files. */
  ghost predicate DifferentFiles(cs: seq<Candidate>) {
    forall i, j :: 0 <= i < j < |cs| && Kept(cs[i]) && Kept(cs[j]) ==> PathOf(cs[i]) != PathOf(cs[j])
  }

  ghost predicate SameRun(cs: seq<Candidate>, cs': seq<Candidate>) {
    |cs| == |cs'| && forall i :: 0 <= i < |cs| ==> SameButLists(cs[i], cs'[i])
  }

  lemma PreparedAt(files: Files, cs: seq<Candidate>, session: Option<string>, clock: nat -> string, i: nat)
    requires AllPreparable(cs) && i < |cs|
    ensures cs[i] in cs && Preparable(cs[i])
    ensures PrepareAll(files, cs, session, clock)[i] == Prepare(files, cs[i], session, clock(i))
  {
  }

  lemma NoneOnCatalog(files: Files, cs: seq<Candidate>, session: Option<string>, clock: nat -> string)
    requires AllPreparable(cs)
    ensures NotCatalog(PrepareAll(files, cs, session, clock), CATALOG_PATH)
  {
    var ops := PrepareAll(files, cs, session, clock);
    forall op | op in ops && op.Prepared?
      ensures op.path != CATALOG_PATH
    {
      var i :| 0 <= i < |ops| && ops[i] == op;
      PreparedAt(files, cs, session, clock, i);
      InFolder(cs[i]);
    }
  }

  lemma InFolder(c: Candidate)
    ensures PathOf(c) != CATALOG_PATH
  {
    assert PathOf(c)[|c.category|] == '/' && '/' in PathOf(c);
    assert '/' !in CATALOG_PATH;
  }

  lemma {:induction false} SameRows(cs: seq<Candidate>, cs': seq<Candidate>)
    requires AllPreparable(cs) && AllPreparable(cs') && SameRun(cs, cs')
    ensures Rows(cs) == Rows(cs')
    decreases |cs|
  {
    if cs != [] {
      SameRows(cs[1..], cs'[1..]);
      assert SameButLists(cs[0], cs'[0]);
    }
  }

  /** A run leaves alone what the catalog takes from other memories. */
  lemma SameOthers(files: Files, cs: seq<Candidate>, cs': seq<Candidate>, session: Option<string>, clock: nat -> string,
                   catalog: string)
    requires AllPreparable(cs) && SameRun(cs, cs')
    ensures var writes := PlanOf(files, PrepareAll(files, cs, session, clock), CATALOG_PATH, catalog).writes;
      Others(Write(files, writes), cs') == Others(files, cs)
  {
    var ops := PrepareAll(files, cs, session, clock);
    var writes := PlanOf(files, ops, CATALOG_PATH, catalog).writes;
    forall path | path != CATALOG_PATH && !Targeted(cs, path)
      ensures Read(Write(files, writes), path) == Read(files, path)
    {
      Untouched(files, cs, session, clock, catalog, path);
    }
    SameElsewhere(Write(files, writes), files, cs, cs');
  }

  lemma Untouched(files: Files, cs: seq<Candidate>, session: Option<string>, clock: nat -> string, catalog: string,
                  path: Path)
    requires AllPreparable(cs) && path != CATALOG_PATH && !Targeted(cs, path)
    ensures var writes := PlanOf(files, PrepareAll(files, cs, session, clock), CATALOG_PATH, catalog).writes;
      Read(Write(files, writes), path) == Read(files, path)
  {
    var ops := PrepareAll(files, cs, session, clock);
    var writes := PlanOf(files, ops, CATALOG_PATH, catalog).writes;
    forall w | w in writes
      ensures w.path != path
    {
      PlannedWrites(files, NO_PLAN, ops, w);
      if w.path != CATALOG_PATH {
        var i :| 0 <= i < |ops| && ops[i] == Prepared(w.path, w.content);
        PreparedAt(files, cs, session, clock, i);
      }
    }
    UnwrittenStays(files, writes, path);
  }

  lemma SameTargets(cs: seq<Candidate>, cs': seq<Candidate>, path: Path)
    requires SameRun(cs, cs')
    ensures Targeted(cs, path) <==> Targeted(cs', path)
  {
    if c :| c in cs && Kept(c) && PathOf(c) == path {
      var i :| 0 <= i < |cs| && cs[i] == c;
      assert SameButLists(cs[i], cs'[i]) && cs'[i] in cs';
    }
    if c' :| c' in cs' && Kept(c') && PathOf(c') == path {
      var i :| 0 <= i < |cs'| && cs'[i] == c';
      assert SameButLists(cs[i], cs'[i]) && cs[i] in cs;
    }
  }

  lemma SameElsewhere(files': Files, files: Files, cs: seq<Candidate>, cs': seq<Candidate>)
    requires SameRun(cs, cs')
    requires forall path :: path != CATALOG_PATH && !Targeted(cs, path) ==> Read(files', path) == Read(files, path)
    ensures Others(files', cs') == Others(files, cs)
  {
    var others', others := Others(files', cs'), Others(files, cs);
    forall path: Path
      ensures path in others' <==> path in others
      ensures path in others ==> others'[path] == others[path]
    {
      SameTargets(cs, cs', path);
    }
  }

  /** No kept candidate has a carriage return in its trimmed body. */
  predicate NoReturns(cs: seq<Candidate>) {
    forall c :: c in cs && Kept(c) ==> '\r' !in Trim(Body(c))
  }

  /**
    A second run over the same candidates, whatever their tags and sources, at any later time, writes nothing, no memory
    and no catalog, if and only if no trimmed body and no catalog holds a carriage return.  The session may even be
    another one, as long as the first was not blank.
   */
  lemma SecondRunWritesNothingIff(files: Files, cs: seq<Candidate>, cs': seq<Candidate>, session: Option<string>,
                                  session': Option<string>, clock: nat -> string, clock': nat -> string,
                                  render: (Files, seq<Row>) -> string)
    requires PlainRun(cs, session, clock) && PlainRun(cs', session', clock') && SameRun(cs, cs') && DifferentFiles(cs)
    requires session' == session || Trim(Shown(session)) != ""
    ensures var files' := Write(files, RunPlan(files, cs, session, clock, render).writes);
      RunPlan(files', cs', session', clock', render).writes == []
      <==> NoReturns(cs) && '\r' !in Catalog(files, cs, render)
  {
    var ops, catalog := PrepareAll(files, cs, session, clock), Catalog(files, cs, render);
    var files' := Write(files, PlanOf(files, ops, CATALOG_PATH, catalog).writes);
    SameRows(cs, cs');
    SameOthers(files, cs, cs', session, clock, catalog);
    NoneOnCatalog(files, cs, session, clock);
    PreparedAgainAll(files, files', cs, cs', session, session', clock, clock', catalog);
    RepeatWritesNothingIff(files, ops, PrepareAll(files', cs', session', clock'), CATALOG_PATH, catalog);
    AllStayIff(files, cs, session, clock);
  }

  lemma AllStayIff(files: Files, cs: seq<Candidate>, session: Option<string>, clock: nat -> string)
    requires PlainRun(cs, session, clock)
    ensures (forall op :: op in PrepareAll(files, cs, session, clock) && op.Prepared? ==> StaysOnFile(files, op))
      <==> NoReturns(cs)
  {
    var ops := PrepareAll(files, cs, session, clock);
    forall i | 0 <= i < |cs|
      ensures ops[i] in ops && cs[i] in cs && (ops[i].Prepared? <==> Kept(cs[i]))
      ensures ops[i].Prepared? ==> (StaysOnFile(files, ops[i]) <==> '\r' !in Trim(Body(cs[i])))
    {
      PreparedAt(files, cs, session, clock, i);
      if Kept(cs[i]) {
        StaysIff(files, cs[i], session, clock(i));
      }
    }
    forall op | op in ops
      ensures exists i :: 0 <= i < |cs| && ops[i] == op
    {
    }
    if forall op :: op in ops && op.Prepared? ==> StaysOnFile(files, op) {
      forall c | c in cs && Kept(c)
        ensures '\r' !in Trim(Body(c))
      {
        var i :| 0 <= i < |cs| && cs[i] == c;
        assert ops[i] in ops;
      }
    }
  }

  lemma PreparedAgainAll(files: Files, files': Files, cs: seq<Candidate>, cs': seq<Candidate>, session: Option<string>,
                         session': Option<string>, clock: nat -> string, clock': nat -> string, catalog: string)
    requires PlainRun(cs, session, clock) && PlainRun(cs', session', clock') && SameRun(cs, cs') && DifferentFiles(cs)
    requires session' == session || Trim(Shown(session)) != ""
    requires files' == Write(files, PlanOf(files, PrepareAll(files, cs, session, clock), CATALOG_PATH, catalog).writes)
    ensures DifferentPaths(PrepareAll(files, cs, session, clock))
    ensures Again(PrepareAll(files, cs, session, clock), PrepareAll(files', cs', session', clock'))
  {
    var ops, ops' := PrepareAll(files, cs, session, clock), PrepareAll(files', cs', session', clock');
    FilesToPaths(files, cs, session, clock);
    NoneOnCatalog(files, cs, session, clock);
    forall i | 0 <= i < |ops|
      ensures OpAgain(ops[i], ops'[i])
    {
      PreparedAt(files, cs, session, clock, i);
      PreparedAt(files', cs', session', clock', i);
      assert SameButLists(cs[i], cs'[i]);
      if Kept(cs[i]) {
        FileAfterRun(files, ops, i, CATALOG_PATH, catalog);
        HeaderOnFile(files, cs[i], session, clock(i), files'[PathOf(cs[i])]);
        PreparedAgain(files, files', cs[i], cs'[i], session, session', clock(i), clock'(i));
      }
    }
  }

  lemma FilesToPaths(files: Files, cs: seq<Candidate>, session: Option<string>, clock: nat -> string)
    requires AllPreparable(cs) && DifferentFiles(cs)
    ensures DifferentPaths(PrepareAll(files, cs, session, clock))
  {
    var ops := PrepareAll(files, cs, session, clock);
    forall i, j | 0 <= i < j < |ops| && ops[i].Prepared? && ops[j].Prepared?
      ensures ops[i].path != ops[j].path
    {
      PreparedAt(files, cs, session, clock, i);
      PreparedAt(files, cs, session, clock, j);
    }
  }

  // ---------------------------------------------------------------- new tags are lost

  lemma LinesFrom(data: seq<Entry>, i: nat)
    requires i < |data|
    ensures Lines(data[i..]) == EntryLines(data[i]) + Lines(data[i + 1..])
  {
    assert data[i..][0] == data[i] && data[i..][1..] == data[i + 1..];
  }

  predicate HasTags(data: seq<Entry>, tags: seq<string>) {
    && |data| > 3 && data[0].value.Scalar? && data[1].value.Scalar? && data[2].value.Scalar?
    && data[3].value == Items(tags) && tags != []
  }

  /** The first tag is on the fifth line of the block. */
  lemma FirstTagLine(data: seq<Entry>, tags: seq<string>)
    requires HasTags(data, tags)
    ensures |Lines(data)| > 4 && Lines(data)[4] == "  - " + tags[0]
  {
    assert data[0..] == data;
    LinesFrom(data, 0);
    LinesFrom(data, 1);
    LinesFrom(data, 2);
    LinesFrom(data, 3);
    assert EntryLines(data[3])[1] == "  - " + tags[0];
  }

  function Always(now: string): nat -> string { _ => now }

  /** A run of a single memory writes its file exactly when it is no duplicate, and then with what was prepared. */
  lemma SingleRun(files: Files, op: Operation, catalogPath: Path, catalog: string)
    requires op.Prepared? && op.path != catalogPath
    ensures var writes := PlanOf(files, [op], catalogPath, catalog).writes;
      && (Hit(writes, op.path) <==> !Duplicate(Read(files, op.path), op.content))
      && (Hit(writes, op.path) ==> Held(Write(files, writes), op.path) == Some(op.content))
  {
    var plan := PlanOps(files, NO_PLAN, [op]);
    var writes := PlanOf(files, [op], catalogPath, catalog).writes;
    PlannedWrites(files, NO_PLAN, [op], Pending(op.path, op.content, Read(files, op.path)));
    forall w | w in writes && w.path == op.path
      ensures w.content == op.content && !Duplicate(Read(files, op.path), op.content)
    {
      PlannedWrites(files, NO_PLAN, [op], w);
    }
    if Hit(writes, op.path) {
      var k := LastTo(writes, op.path);
      assert writes[k] in writes;
      LastWriteLands(files, writes, k);
    }
  }

  lemma TagsTell(c: Candidate, c': Candidate, existing: map<string, string>, existing': map<string, string>,
                 session: Option<string>, now: string, now': string)
    requires Kept(c) && LocalMarkdown(c.filename) && OneLineFields(c) && ReadValues(existing)
    requires Kept(c') && LocalMarkdown(c'.filename) && OneLineFields(c') && ReadValues(existing')
    requires OneLine(Shown(session)) && OneLine(now) && OneLine(now')
    requires c.tags != [] && c'.tags != [] && c.tags[0] != c'.tags[0]
    ensures Print(Entries(c, existing, session, now)) + Body(c)
         != Print(Entries(c', existing', session, now')) + Body(c')
  {
    EntriesGood(c, existing, session, now);
    EntriesGood(c', existing', session, now');
    TagsPrint(Entries(c, existing, session, now), c.tags, Body(c),
              Entries(c', existing', session, now'), c'.tags, Body(c'));
  }

  lemma TagsPrint(data: seq<Entry>, tags: seq<string>, body: string,
                  data': seq<Entry>, tags': seq<string>, body': string)
    requires GoodData(data) && GoodData(data') && HasTags(data, tags) && HasTags(data', tags') && tags[0] != tags'[0]
    ensures Print(data) + body != Print(data') + body'
  {
    FirstTagLine(data, tags);
    FirstTagLine(data', tags');
    assert ("  - " + tags[0])[4..] == tags[0] && ("  - " + tags'[0])[4..] == tags'[0];
    if Print(data) + body == Print(data') + body' {
      PrintInjective(data, body, data', body');
    }
  }

  /** The candidate alone in a run. */
  predicate Plain(c: Candidate) {
    Kept(c) && Preparable(c) && OneLineFields(c)
  }

  lemma PlainAlone(files: Files, c: Candidate, session: Option<string>, now: string)
    requires Plain(c) && OneLine(Shown(session)) && OneLine(now)
    ensures PlainRun([c], session, Always(now)) && DifferentFiles([c])
    ensures PrepareAll(files, [c], session, Always(now)) == [Prepare(files, c, session, now)]
  {
  }

  /** After the run of a single new memory its file holds what was prepared. */
  lemma AloneRun(c: Candidate, session: Option<string>, now: string, render: (Files, seq<Row>) -> string)
    requires Plain(c) && OneLine(Shown(session)) && OneLine(now)
    ensures AllPreparable([c])
    ensures Held(Write(map[], RunPlan(map[], [c], session, Always(now), render).writes), PathOf(c))
         == Some(Content(map[], c, session, now))
  {
    PlainAlone(map[], c, session, now);
    InFolder(c);
    SingleRun(map[], Prepare(map[], c, session, now), CATALOG_PATH, Catalog(map[], [c], render));
  }

  /** The run of a single memory that is on file, with other tags and sources. */
  lemma AgainAlone(files: Files, c: Candidate, c': Candidate, session: Option<string>, now: string, now': string,
                   render: (Files, seq<Row>) -> string)
    requires Plain(c) && Plain(c') && SameButLists(c, c') && OneLine(Shown(session)) && OneLine(now) && OneLine(now')
    requires Held(files, PathOf(c)) == Some(Content(map[], c, session, now))
    ensures AllPreparable([c'])
    ensures var writes := RunPlan(files, [c'], session, Always(now'), render).writes;
      && (Hit(writes, PathOf(c)) <==> '\r' in Trim(Body(c)))
      && (Hit(writes, PathOf(c)) ==> Held(Write(files, writes), PathOf(c)) == Some(Content(files, c', session, now')))
  {
    var content, content' := Content(map[], c, session, now), Content(files, c', session, now');
    ExistingReads(map[], c);
    EntriesGood(c, Existing(map[], c), session, now);
    ReadsBackEquivalentIff(Entries(c, Existing(map[], c), session, now), Body(c));
    PreparedAgain(map[], files, c, c', session, session, now, now');
    assert Duplicate(Read(files, PathOf(c)), content') <==> Equivalent(ReadBack(content), content);
    PlainAlone(files, c', session, now');
    InFolder(c');
    SingleRun(files, Prepare(files, c', session, now'), CATALOG_PATH, Catalog(files, [c'], render));
  }

  /**
    A memory sent again with other tags: what is prepared differs from what is on file, and it is written, new tags and
    all, if and only if the trimmed body holds a carriage return.  Otherwise the new tags are lost.
   */
  lemma NewTagsAreLostIff(c: Candidate, c': Candidate, session: Option<string>, now: string, now': string,
                          render: (Files, seq<Row>) -> string)
    requires Plain(c) && Plain(c') && SameButLists(c, c') && OneLine(Shown(session)) && OneLine(now) && OneLine(now')
    requires c.tags != [] && c'.tags != [] && c.tags[0] != c'.tags[0]
    ensures AllPreparable([c]) && AllPreparable([c'])
    ensures var files := Write(map[], RunPlan(map[], [c], session, Always(now), render).writes);
      var writes := RunPlan(files, [c'], session, Always(now'), render).writes;
      && Held(files, PathOf(c)) == Some(Content(map[], c, session, now))
      && Content(files, c', session, now') != Content(map[], c, session, now)
      && (Hit(writes, PathOf(c)) <==> '\r' in Trim(Body(c)))
      && (Hit(writes, PathOf(c)) ==> Held(Write(files, writes), PathOf(c)) == Some(Content(files, c', session, now')))
  {
    AloneRun(c, session, now, render);
    var files := Write(map[], RunPlan(map[], [c], session, Always(now), render).writes);
    AgainAlone(files, c, c', session, now, now', render);
    ExistingReads(map[], c);
    ExistingReads(files, c');
    TagsTell(c, c', Existing(map[], c), Existing(files, c'), session, now, now');
  }

  lemma BodyChars(c: Candidate)
    ensures forall x :: x in Trim(Body(c)) ==> x in c.content
  {
    StripChars(c.content);
    TrimLeftChars(Strip(c.content));
    TrimTrims(Body(c));
  }

  function Note(tag: string, body: string): Candidate {
    Candidate("user", "note.md", body, ["n1"], None, None, [tag])
  }

  lemma NotePlain(body: string)
    ensures Plain(Note("old", body)) && Plain(Note("new", body)) && OneLine("s")
  {
  }

  lemma NoReturnInBody()
    ensures '\r' !in Trim(Body(Note("old", "Body")))
  {
    BodyChars(Note("old", "Body"));
  }

  /** One memory, tagged "old" and then "new": the file keeps the old tag. */
  lemma NewTagIsLost(now: string, now': string, render: (Files, seq<Row>) -> string)
    requires OneLine(now) && OneLine(now')
    ensures Preparable(Note("old", "Body")) && Preparable(Note("new", "Body")) && LocalMarkdown("note.md")
    ensures var first, second := Note("old", "Body"), Note("new", "Body");
      var files := Write(map[], RunPlan(map[], [first], Some("s"), Always(now), render).writes);
      && Held(files, PathOf(first)) == Some(Content(map[], first, Some("s"), now))
      && Content(files, second, Some("s"), now') != Content(map[], first, Some("s"), now)
      && !Hit(RunPlan(files, [second], Some("s"), Always(now'), render).writes, PathOf(first))
  {
    NotePlain("Body");
    NoReturnInBody();
    NewTagsAreLostIff(Note("old", "Body"), Note("new", "Body"), Some("s"), now, now', render);
  }

  lemma ReturnInBody()
    ensures '\r' in Trim(Body(Note("old", "a\rb")))
  {
    var text := "a\rb";
    assert text[0] == 'a' && text[1] == '\r' && text[2] == 'b' && |text| == 3;
    assert !("---\n" <= text) by {
      assert |"---\n"| == 4;
    }
    assert Trim(text) == text;
    assert Body(Note("old", text)) == text;
  }

  /** The very same memory, with a carriage return in its body, is written again on every run. */
  lemma ReturnIsRewritten(now: string, now': string, render: (Files, seq<Row>) -> string)
    requires OneLine(now) && OneLine(now')
    ensures Preparable(Note("old", "a\rb"))
    ensures var c := Note("old", "a\rb");
      var files := Write(map[], RunPlan(map[], [c], Some("s"), Always(now), render).writes);
      Hit(RunPlan(files, [c], Some("s"), Always(now'), render).writes, PathOf(c))
  {
    var c := Note("old", "a\rb");
    NotePlain("a\rb");
    ReturnInBody();
    AloneRun(c, Some("s"), now, render);
    AgainAlone(Write(map[], RunPlan(map[], [c], Some("s"), Always(now), render).writes), c, c, Some("s"), now, now',
               render);
  }
}
