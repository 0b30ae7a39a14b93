/**
  The text of a task's log: one JSON value a line, written without escaping what is not ASCII, and split again at every
  character that Python takes for the end of a line.
 */
module TaskLogText {
  import opened Wrappers
  import opened Text
  import opened Frontmatter

  datatype Json =
    | Null
    | Flag(value: bool)
    | Number(digits: string)
    | Words(text: string)
    | List(items: Jsons)
    | Object(members: Members)

  datatype Jsons = NoItems | Item(head: Json, tail: Jsons)

  datatype Members = NoMembers | Member(key: string, value: Json, others: Members)

  // ---------------------------------------------------------------- printing

  function HexDigit(d: nat): char
    requires d < 16
  {
    if d < 10 then '0' + d as char else 'a' + (d - 10) as char
  }

  /** What a character of a text prints as. */
  function Escape(c: char): string {
    if c == '"' then "\\\""
    else if c == '\\' then "\\\\"
    else if c == '\n' then "\\n"
    else if c == '\r' then "\\r"
    else if c == '\t' then "\\t"
    else if c == '\U{0008}' then "\\b"
    else if c == '\U{000C}' then "\\f"
    else if c < ' ' then "\\u00" + [HexDigit(c as nat / 16), HexDigit(c as nat % 16)]
    else [c]
  }

  function EscapeAll(s: string): string {
    if s == "" then "" else Escape(s[0]) + EscapeAll(s[1..])
  }

  function Quote(s: string): string { "\"" + (EscapeAll(s) + "\"") }

  /** `json.dumps(..., ensure_ascii=False)`. */
  function Dump(j: Json): string {
    match j
    case Null => "null"
    case Flag(value) => if value then "true" else "false"
    case Number(digits) => digits
    case Words(text) => Quote(text)
    case List(items) => "[" + (DumpItems(items) + "]")
    case Object(members) => "{" + (DumpMembers(members) + "}")
  }

  function DumpItems(items: Jsons): string {
    match items
    case NoItems => ""
    case Item(head, tail) => Dump(head) + (if tail.NoItems? then "" else ", " + DumpItems(tail))
  }

  function DumpMembers(members: Members): string {
    match members
    case NoMembers => ""
    case Member(key, value, others) =>
      Quote(key) + (": " + (Dump(value) + (if others.NoMembers? then "" else ", " + DumpMembers(others))))
  }

  /** The characters of numbers. */
  predicate NumberChar(c: char) {
    '0' <= c <= '9' || c == '-' || c == '+' || c == '.' || c == 'e' || c == 'E'
  }

  /** Every number is printed as a number. */
  predicate Plain(j: Json) {
    match j
    case Number(digits) => digits != "" && forall c :: c in digits ==> NumberChar(c)
    case List(items) => PlainItems(items)
    case Object(members) => PlainMembers(members)
    case _ => true
  }

  predicate PlainItems(items: Jsons) { items.NoItems? || (Plain(items.head) && PlainItems(items.tail)) }

  predicate PlainMembers(members: Members) {
    members.NoMembers? || (Plain(members.value) && PlainMembers(members.others))
  }

  // ---------------------------------------------------------------- ends of lines that are not escaped

  /** Next line, line separator, paragraph separator. */
  predicate Separator(c: char) { c == '\U{0085}' || c == '\U{2028}' || c == '\U{2029}' }

  predicate Separated(s: string) { exists c :: c in s && Separator(c) }

  /** Some text or key holds one of them. */
  predicate Parted(j: Json) {
    match j
    case Words(text) => Separated(text)
    case List(items) => PartedItems(items)
    case Object(members) => PartedMembers(members)
    case _ => false
  }

  predicate PartedItems(items: Jsons) { items.Item? && (Parted(items.head) || PartedItems(items.tail)) }

  predicate PartedMembers(members: Members) {
    members.Member? && (Separated(members.key) || Parted(members.value) || PartedMembers(members.others))
  }

  lemma OneLineBoth(a: string, b: string)
    ensures OneLine(a + b) <==> OneLine(a) && OneLine(b)
  {
    assert forall c :: c in a + b <==> c in a || c in b;
  }

  lemma EscapeOneLine(c: char)
    ensures OneLine(Escape(c)) <==> !Separator(c)
  {
    if c >= ' ' && c != '"' && c != '\\' {
      assert c in [c];
    }
  }

  lemma {:induction false} EscapeAllOneLine(s: string)
    ensures OneLine(EscapeAll(s)) <==> !Separated(s)
  {
    if s != "" {
      EscapeOneLine(s[0]);
      EscapeAllOneLine(s[1..]);
      OneLineBoth(Escape(s[0]), EscapeAll(s[1..]));
      assert s == [s[0]] + s[1..];
    }
  }

  lemma QuoteOneLine(s: string)
    ensures OneLine(Quote(s)) <==> !Separated(s)
  {
    EscapeAllOneLine(s);
    OneLineBoth(EscapeAll(s), "\"");
    OneLineBoth("\"", EscapeAll(s) + "\"");
  }

  /** A printed value is on one line exactly when none of its texts and keys holds a separator. */
  lemma {:induction false} DumpOneLine(j: Json)
    requires Plain(j)
    ensures OneLine(Dump(j)) <==> !Parted(j)
    decreases j
  {
    match j
    case Words(text) => QuoteOneLine(text);
    case List(items) =>
      ItemsOneLine(items);
      OneLineBoth(DumpItems(items), "]");
      OneLineBoth("[", DumpItems(items) + "]");
    case Object(members) =>
      MembersOneLine(members);
      OneLineBoth(DumpMembers(members), "}");
      OneLineBoth("{", DumpMembers(members) + "}");
    case _ =>
  }

  lemma {:induction false} ItemsOneLine(items: Jsons)
    requires PlainItems(items)
    ensures OneLine(DumpItems(items)) <==> !PartedItems(items)
    decreases items
  {
    match items
    case NoItems =>
    case Item(head, tail) =>
      DumpOneLine(head);
      ItemsOneLine(tail);
      OneLineBoth(", ", DumpItems(tail));
      OneLineBoth(Dump(head), if tail.NoItems? then "" else ", " + DumpItems(tail));
  }

  lemma {:induction false} MembersOneLine(members: Members)
    requires PlainMembers(members)
    ensures OneLine(DumpMembers(members)) <==> !PartedMembers(members)
    decreases members
  {
    match members
    case NoMembers =>
    case Member(key, value, others) =>
      var rest := if others.NoMembers? then "" else ", " + DumpMembers(others);
      QuoteOneLine(key);
      DumpOneLine(value);
      MembersOneLine(others);
      OneLineBoth(", ", DumpMembers(others));
      OneLineBoth(Dump(value), rest);
      OneLineBoth(": ", Dump(value) + rest);
      OneLineBoth(Quote(key), ": " + (Dump(value) + rest));
  }

  // ---------------------------------------------------------------- inside and outside of texts

  datatype Place = Outside | Inside | Escaped

  function Next(p: Place, c: char): Place {
    match p
    case Outside => if c == '"' then Inside else Outside
    case Inside => if c == '"' then Outside else if c == '\\' then Escaped else Inside
    case Escaped => Inside
  }

  function Scan(p: Place, s: string): Place
    decreases |s|
  {
    if s == "" then p else Scan(Next(p, s[0]), s[1..])
  }

  /** A text is left open at the end: no decoder takes that. */
  predicate Open(s: string) { !Scan(Outside, s).Outside? }

  lemma {:induction false} ScanAppend(p: Place, a: string, b: string)
    ensures Scan(p, a + b) == Scan(Scan(p, a), b)
    decreases |a|
  {
    if a == "" {
      assert a + b == b;
    } else {
      ScanAppend(Next(p, a[0]), a[1..], b);
      assert (a + b)[0] == a[0] && (a + b)[1..] == a[1..] + b;
    }
  }

  /** From place p, every end of line comes inside a text. */
  ghost predicate BreaksInside(p: Place, s: string) {
    forall k :: 0 <= k < |s| && IsBreak(s[k]) ==> Scan(p, s[..k]).Inside?
  }

  /** From p to q, with ends of lines inside texts only. */
  ghost predicate Leads(p: Place, s: string, q: Place) { Scan(p, s) == q && BreaksInside(p, s) }

  lemma LeadsAppend(p: Place, a: string, q: Place, b: string, r: Place)
    requires Leads(p, a, q) && Leads(q, b, r)
    ensures Leads(p, a + b, r)
  {
    ScanAppend(p, a, b);
    forall k | 0 <= k < |a + b| && IsBreak((a + b)[k])
      ensures Scan(p, (a + b)[..k]).Inside?
    {
      if k < |a| {
        assert (a + b)[..k] == a[..k];
      } else {
        assert (a + b)[..k] == a + b[..k - |a|] && (a + b)[k] == b[k - |a|];
        ScanAppend(p, a, b[..k - |a|]);
      }
    }
  }

  lemma OneLineLeads(p: Place, s: string)
    requires OneLine(s)
    ensures BreaksInside(p, s)
  {
    forall k | 0 <= k < |s|
      ensures !IsBreak(s[k])
    {
      assert s[k] in s;
    }
  }

  lemma {:induction false} PlainLeads(s: string)
    requires OneLine(s) && '"' !in s
    ensures Leads(Outside, s, Outside)
    decreases |s|
  {
    if s != "" {
      assert forall c :: c in s[1..] ==> c in s;
      assert s[0] in s;
      PlainLeads(s[1..]);
    }
    OneLineLeads(Outside, s);
  }

  lemma TwoCharacters(c: char)
    requires |Escape(c)| == 2
    ensures Escape(c)[0] == '\\' && OneLine(Escape(c))
  {
    var e := Escape(c);
    assert e in ["\\\"", "\\\\", "\\n", "\\r", "\\t", "\\b", "\\f"];
  }

  lemma EscapeLeads(c: char)
    ensures Leads(Inside, Escape(c), Inside)
  {
    var e := Escape(c);
    if |e| == 1 {
      assert e[1..] == "" && e[..0] == "";
    } else if |e| == 2 {
      TwoCharacters(c);
      assert e[1..][1..] == "" && Next(Inside, e[0]) == Escaped;
      OneLineLeads(Inside, e);
    } else {
      LongEscape(c);
    }
  }

  lemma LongEscape(c: char)
    requires |Escape(c)| > 2
    ensures Leads(Inside, Escape(c), Inside)
  {
    var e := Escape(c);
    var x, y := HexDigit(c as nat / 16), HexDigit(c as nat % 16);
    assert e == ['\\', 'u', '0', '0', x, y];
    assert x != '"' && x != '\\' && y != '"' && y != '\\' && !IsBreak(x) && !IsBreak(y);
    assert e[1..] == ['u', '0', '0', x, y] && e[1..][1..] == ['0', '0', x, y];
    NoQuotes(['0', '0', x, y]);
    OneLineLeads(Inside, e);
  }

  lemma {:induction false} NoQuotes(s: string)
    requires forall c :: c in s ==> c != '"' && c != '\\'
    ensures Scan(Inside, s) == Inside
    decreases |s|
  {
    if s != "" {
      assert s[0] in s;
      assert forall c :: c in s[1..] ==> c in s;
      NoQuotes(s[1..]);
    }
  }

  lemma {:induction false} EscapeAllLeads(s: string)
    ensures Leads(Inside, EscapeAll(s), Inside)
  {
    if s != "" {
      EscapeLeads(s[0]);
      EscapeAllLeads(s[1..]);
      LeadsAppend(Inside, Escape(s[0]), Inside, EscapeAll(s[1..]), Inside);
    }
  }

  lemma QuoteLeads(s: string)
    ensures Leads(Outside, Quote(s), Outside)
  {
    EscapeAllLeads(s);
    assert "\""[1..] == "";
    assert Leads(Outside, "\"", Inside) && Leads(Inside, "\"", Outside);
    LeadsAppend(Inside, EscapeAll(s), Inside, "\"", Outside);
    LeadsAppend(Outside, "\"", Inside, EscapeAll(s) + "\"", Outside);
  }

  lemma MarkLeads()
    ensures Leads(Outside, "", Outside) && Leads(Outside, ", ", Outside) && Leads(Outside, ": ", Outside)
    ensures Leads(Outside, "[", Outside) && Leads(Outside, "]", Outside)
    ensures Leads(Outside, "{", Outside) && Leads(Outside, "}", Outside)
  {
    PlainLeads("");
    PlainLeads(", ");
    PlainLeads(": ");
    PlainLeads("[");
    PlainLeads("]");
    PlainLeads("{");
    PlainLeads("}");
  }

  lemma WordLeads()
    ensures Leads(Outside, "null", Outside) && Leads(Outside, "true", Outside) && Leads(Outside, "false", Outside)
  {
    PlainLeads("null");
    PlainLeads("true");
    PlainLeads("false");
  }

  /** A printed value starts and ends outside of texts, and breaks lines only inside of them. */
  lemma {:induction false} DumpLeads(j: Json)
    requires Plain(j)
    ensures Leads(Outside, Dump(j), Outside)
    decreases j
  {
    match j
    case Null => WordLeads();
    case Flag(_) => WordLeads();
    case Number(digits) => PlainLeads(digits);
    case Words(text) => QuoteLeads(text);
    case List(items) =>
      MarkLeads();
      ItemsLead(items);
      LeadsAppend(Outside, DumpItems(items), Outside, "]", Outside);
      LeadsAppend(Outside, "[", Outside, DumpItems(items) + "]", Outside);
    case Object(members) =>
      MarkLeads();
      MembersLead(members);
      LeadsAppend(Outside, DumpMembers(members), Outside, "}", Outside);
      LeadsAppend(Outside, "{", Outside, DumpMembers(members) + "}", Outside);
  }

  lemma {:induction false} ItemsLead(items: Jsons)
    requires PlainItems(items)
    ensures Leads(Outside, DumpItems(items), Outside)
    decreases items
  {
    MarkLeads();
    match items
    case NoItems =>
    case Item(head, tail) =>
      DumpLeads(head);
      ItemsLead(tail);
      LeadsAppend(Outside, ", ", Outside, DumpItems(tail), Outside);
      LeadsAppend(Outside, Dump(head), Outside, if tail.NoItems? then "" else ", " + DumpItems(tail), Outside);
  }

  lemma {:induction false} MembersLead(members: Members)
    requires PlainMembers(members)
    ensures Leads(Outside, DumpMembers(members), Outside)
    decreases members
  {
    MarkLeads();
    match members
    case NoMembers =>
    case Member(key, value, others) =>
      var rest := if others.NoMembers? then "" else ", " + DumpMembers(others);
      QuoteLeads(key);
      DumpLeads(value);
      MembersLead(others);
      LeadsAppend(Outside, ", ", Outside, DumpMembers(others), Outside);
      LeadsAppend(Outside, Dump(value), Outside, rest, Outside);
      LeadsAppend(Outside, ": ", Outside, Dump(value) + rest, Outside);
      LeadsAppend(Outside, Quote(key), Outside, ": " + (Dump(value) + rest), Outside);
  }

  // ---------------------------------------------------------------- the log written and read back

  /** The text that `append_many` leaves in the file. */
  function Written(js: seq<Json>): string {
    if js == [] then "" else Dump(js[0]) + ['\n'] + Written(js[1..])
  }

  lemma WrittenFirst(j: Json, others: seq<Json>)
    ensures Written([j] + others) == Dump(j) + ['\n'] + Written(others)
  {
    assert ([j] + others)[1..] == others;
  }

  lemma FirstOfBoth(a: seq<Json>, b: seq<Json>)
    requires a != []
    ensures a == [a[0]] + a[1..] && a + b == [a[0]] + (a[1..] + b)
  {
  }

  /** Batches appended one after the other leave the text of all their values. */
  lemma {:induction false} WrittenAppend(a: seq<Json>, b: seq<Json>)
    ensures Written(a + b) == Written(a) + Written(b)
    decreases |a|
  {
    if a == [] {
      assert a + b == b;
    } else {
      WrittenAppend(a[1..], b);
      FirstOfBoth(a, b);
      WrittenFirst(a[0], a[1..]);
      WrittenFirst(a[0], a[1..] + b);
      JoinThree(Dump(a[0]) + ['\n'], Written(a[1..]), Written(b));
    }
  }

  function Lines(js: seq<Json>): seq<string> {
    if js == [] then [] else [Dump(js[0])] + Lines(js[1..])
  }

  /** The loop of `replay_wal` over the lines, with `json.loads` given; None when a line is no JSON. */
  function Decode(lines: seq<string>, loads: string -> Option<Json>): Option<seq<Json>> {
    if lines == [] then Some([])
    else if Trim(lines[0]) == "" then Decode(lines[1..], loads)
    else
      match loads(lines[0])
      case None => None
      case Some(j) =>
        match Decode(lines[1..], loads)
        case None => None
        case Some(js) => Some([j] + js)
  }

  /** What a restart makes of a log file that holds this text. */
  function ReadLog(text: string, loads: string -> Option<Json>): Option<seq<Json>> {
    Decode(SplitLines(ReadBack(text)), loads)
  }

  /** `json.loads` reads these values back as they were printed, and takes no text that ends inside a string. */
  ghost predicate Reads(loads: string -> Option<Json>, js: seq<Json>) {
    && (forall j :: j in js ==> loads(Dump(j)) == Some(j))
    && (forall s :: Open(s) ==> loads(s) == None)
  }

  predicate AllPlain(js: seq<Json>) { forall j :: j in js ==> Plain(j) }

  predicate SomeParted(js: seq<Json>) { exists j :: j in js && Parted(j) }

  lemma PartedFirst(js: seq<Json>)
    requires js != []
    ensures SomeParted(js) <==> Parted(js[0]) || SomeParted(js[1..])
  {
    assert js == [js[0]] + js[1..];
  }

  /** Carriage returns are escaped, so reading the file translates nothing. */
  lemma EscapeAllReturns(s: string)
    ensures '\r' !in EscapeAll(s)
  {
  }

  lemma {:induction false} DumpReturns(j: Json)
    requires Plain(j)
    ensures '\r' !in Dump(j)
    decreases j
  {
    match j
    case Words(text) => EscapeAllReturns(text);
    case List(items) => ItemsReturns(items);
    case Object(members) => MembersReturns(members);
    case _ =>
  }

  lemma {:induction false} ItemsReturns(items: Jsons)
    requires PlainItems(items)
    ensures '\r' !in DumpItems(items)
    decreases items
  {
    if items.Item? {
      DumpReturns(items.head);
      ItemsReturns(items.tail);
    }
  }

  lemma {:induction false} MembersReturns(members: Members)
    requires PlainMembers(members)
    ensures '\r' !in DumpMembers(members)
    decreases members
  {
    if members.Member? {
      EscapeAllReturns(members.key);
      DumpReturns(members.value);
      MembersReturns(members.others);
    }
  }

  lemma {:induction false} WrittenReturns(js: seq<Json>)
    requires AllPlain(js)
    ensures '\r' !in Written(js)
  {
    if js != [] {
      DumpReturns(js[0]);
      WrittenReturns(js[1..]);
    }
  }

  lemma DumpStarts(j: Json)
    requires Plain(j)
    ensures Dump(j) != "" && !IsSpace(Dump(j)[0])
  {
    if j.Number? {
      assert j.digits[0] in j.digits;
    }
  }

  /** A line that does not start with white space is not blank. */
  lemma NotBlank(s: string)
    requires s != "" && !IsSpace(s[0])
    ensures Trim(s) != ""
  {
    TrimRightKeeps(s);
  }

  lemma {:induction false} TrimRightKeeps(s: string)
    requires s != "" && !IsSpace(s[0])
    ensures TrimRight(s) != ""
    decreases |s|
  {
    if IsSpace(s[|s| - 1]) {
      TrimRightKeeps(s[..|s| - 1]);
    }
  }

  lemma CutLine(d: string, more: string, i: nat)
    requires i == LineEnd(d) && '\r' !in d
    ensures SplitLines(d + ['\n'] + more) == [d[..i]] + SplitLines((d + ['\n'] + more)[i + 1..])
  {
    var s := d + ['\n'] + more;
    assert s[..i] == d[..i];
    if i < |d| {
      assert s[i] == d[i] && d[i] in d;
    }
    LineEndUnique(s, i);
  }

  /** A printed value up to its first end of line: all of it, or a piece that ends inside a string. */
  lemma FirstPiece(j: Json, i: nat)
    requires Plain(j) && i == LineEnd(Dump(j))
    ensures Trim(Dump(j)[..i]) != ""
    ensures if Parted(j) then Open(Dump(j)[..i]) else i == |Dump(j)|
  {
    var d := Dump(j);
    DumpStarts(j);
    DumpOneLine(j);
    DumpLeads(j);
    if i < |d| {
      assert d[i] in d;
      assert Scan(Outside, d[..i]) == Inside;
      assert i > 0;
    } else {
      assert d[..i] == d;
    }
    NotBlank(d[..i]);
  }

  lemma WrittenPlain(js: seq<Json>)
    requires AllPlain(js)
    ensures ReadBack(Written(js)) == Written(js)
  {
    WrittenReturns(js);
    ReadBackPlain(Written(js));
  }

  /** The first line of a log is its first value, or a piece of it that ends inside a string. */
  lemma FirstLine(js: seq<Json>) returns (first: string, rest: string)
    requires js != [] && AllPlain(js)
    ensures SplitLines(ReadBack(Written(js))) == [first] + SplitLines(rest)
    ensures Trim(first) != "" && OneLine(first)
    ensures if Parted(js[0]) then Open(first) else first == Dump(js[0]) && rest == ReadBack(Written(js[1..]))
  {
    var d, more := Dump(js[0]), Written(js[1..]);
    var i := LineEnd(d);
    first, rest := d[..i], (d + ['\n'] + more)[i + 1..];
    WrittenPlain(js);
    WrittenPlain(js[1..]);
    DumpReturns(js[0]);
    CutLine(d, more, i);
    FirstPiece(js[0], i);
    assert i == |d| ==> first == d && rest == more;
  }

  /** Splitting the log gives back its lines exactly when no text or key of its values holds a separator. */
  lemma {:induction false} SplitsBackIff(js: seq<Json>)
    requires AllPlain(js)
    ensures SplitLines(ReadBack(Written(js))) == Lines(js) <==> !SomeParted(js)
  {
    if js != [] {
      PartedFirst(js);
      SplitsBackIff(js[1..]);
      DumpLeads(js[0]);
      var first, rest := FirstLine(js);
      var lines := SplitLines(ReadBack(Written(js)));
      assert lines[0] == first && lines[1..] == SplitLines(rest);
      assert Lines(js)[0] == Dump(js[0]) && Lines(js)[1..] == Lines(js[1..]);
    }
  }

  lemma ReadsFirst(loads: string -> Option<Json>, js: seq<Json>)
    requires js != [] && AllPlain(js) && Reads(loads, js)
    ensures loads(Dump(js[0])) == Some(js[0]) && AllPlain(js[1..]) && Reads(loads, js[1..])
  {
    assert js[0] in js;
  }

  lemma DecodeFirst(first: string, others: seq<string>, loads: string -> Option<Json>)
    requires Trim(first) != ""
    ensures loads(first).None? ==> Decode([first] + others, loads) == None
    ensures loads(first).Some? && Decode(others, loads).None? ==> Decode([first] + others, loads) == None
    ensures loads(first).Some? && Decode(others, loads).Some? ==>
      Decode([first] + others, loads) == Some([loads(first).value] + Decode(others, loads).value)
  {
    assert ([first] + others)[0] == first && ([first] + others)[1..] == others;
  }

  lemma EmptyLog(loads: string -> Option<Json>)
    ensures ReadLog(Written([]), loads) == Some([])
  {
    assert Written([]) == "" && ReadBack("") == "" && SplitLines("") == [];
  }

  lemma LogLost(js: seq<Json>, loads: string -> Option<Json>)
    requires js != [] && AllPlain(js) && Reads(loads, js) && Parted(js[0])
    ensures ReadLog(Written(js), loads) == None
  {
    var first, rest := FirstLine(js);
    DecodeFirst(first, SplitLines(rest), loads);
    assert loads(first) == None;
  }

  lemma LogGoesOn(js: seq<Json>, loads: string -> Option<Json>)
    requires js != [] && AllPlain(js) && Reads(loads, js) && !Parted(js[0])
    ensures ReadLog(Written(js[1..]), loads) == None ==> ReadLog(Written(js), loads) == None
    ensures ReadLog(Written(js[1..]), loads) == Some(js[1..]) ==> ReadLog(Written(js), loads) == Some(js)
  {
    assert js == [js[0]] + js[1..];
    var first, rest := FirstLine(js);
    ReadsFirst(loads, js);
    DecodeFirst(first, SplitLines(rest), loads);
  }

  /** A restart reads a log back value for value when no text or key holds a separator, and cannot read it otherwise. */
  lemma {:induction false} LogReadsBackIff(js: seq<Json>, loads: string -> Option<Json>)
    requires AllPlain(js) && Reads(loads, js)
    ensures ReadLog(Written(js), loads) == if SomeParted(js) then None else Some(js)
  {
    if js == [] {
      EmptyLog(loads);
    } else {
      PartedFirst(js);
      if Parted(js[0]) {
        LogLost(js, loads);
      } else {
        LogGoesOn(js, loads);
        ReadsFirst(loads, js);
        LogReadsBackIff(js[1..], loads);
      }
    }
  }

  function TitleMember(): Members { Member("title", Words("Draft\U{2028}Review"), NoMembers) }

  function TitleEvent(): Json {
    Object(Member("event_type", Words("task_created"), Member("payload", Object(TitleMember()), NoMembers)))
  }

  lemma TitleMemberParted()
    ensures PlainMembers(TitleMember()) && PartedMembers(TitleMember())
  {
    var title := "Draft\U{2028}Review";
    assert title[5] in title && Separator(title[5]);
    assert Separated(title);
  }

  lemma TitleParted()
    ensures Plain(TitleEvent()) && Parted(TitleEvent())
  {
    TitleMemberParted();
    var members := Member("payload", Object(TitleMember()), NoMembers);
    assert PlainMembers(members) && PartedMembers(members);
  }

  lemma HiddenLog(e: Json, loads: string -> Option<Json>)
    requires Plain(e) && Parted(e) && Reads(loads, [e])
    ensures ReadLog(Written([e]), loads) == None
  {
    assert e in [e];
    LogReadsBackIff([e], loads);
  }

  /** A task whose title holds a line separator is written without complaint; its log is not read again. */
  lemma SeparatorHidesLog(loads: string -> Option<Json>)
    requires Reads(loads, [TitleEvent()])
    ensures ReadLog(Written([TitleEvent()]), loads) == None
  {
    TitleParted();
    HiddenLog(TitleEvent(), loads);
  }
}
