/**
  The header block of a memory file: printing it, stripping it off and reading it back.
 */
module Frontmatter {
  import opened Wrappers
  import opened Text

  /** A scalar, already rendered by `str`, or a list of items. */
  datatype Value = Scalar(text: string) | Items(items: seq<string>)

  datatype Entry = Entry(key: string, value: Value)

  // ---------------------------------------------------------------- strings

  /** `str.find` for a non-empty pattern. */
  function Find(s: string, pat: string, from: nat): (r: Option<nat>)
    ensures r.Some? ==>
      from <= r.value && Occurs(s, pat, r.value) && forall k :: from <= k < r.value ==> !Occurs(s, pat, k)
    ensures r.None? ==> forall k :: from <= k ==> !Occurs(s, pat, k)
    decreases |s| - from
  {
    if from + |pat| > |s| then None
    else if Occurs(s, pat, from) then Some(from)
    else if from == |s| then None
    else Find(s, pat, from + 1)
  }

  predicate Occurs(s: string, pat: string, k: nat) {
    k + |pat| <= |s| && s[k..k + |pat|] == pat
  }

  /** The line boundaries of `str.splitlines`. */
  predicate IsBreak(c: char) {
    '\n' <= c <= '\r' || '\U{001C}' <= c <= '\U{001E}' || c == '\U{0085}' || c == '\U{2028}' || c == '\U{2029}'
  }

  predicate OneLine(s: string) {
    forall c :: c in s ==> !IsBreak(c)
  }

  function LineEnd(s: string): (i: nat)
    ensures i <= |s| && OneLine(s[..i]) && (i < |s| ==> IsBreak(s[i]))
  {
    if s == [] || IsBreak(s[0]) then 0
    else
      var i := LineEnd(s[1..]);
      assert s[..i + 1] == [s[0]] + s[1..][..i];
      i + 1
  }

  /** `str.splitlines`; a carriage return and line feed are one boundary. */
  function SplitLines(s: string): seq<string> {
    if s == [] then []
    else
      var i := LineEnd(s);
      if i == |s| then [s]
      else if s[i] == '\r' && i + 1 < |s| && s[i + 1] == '\n' then [s[..i]] + SplitLines(s[i + 2..])
      else [s[..i]] + SplitLines(s[i + 1..])
  }

  predicate AllOneLine(lines: seq<string>) { forall l :: l in lines ==> OneLine(l) }

  lemma {:induction false} SplitOneLine(s: string)
    ensures AllOneLine(SplitLines(s))
    decreases |s|
  {
    if s != [] {
      var i := LineEnd(s);
      if i < |s| {
        if s[i] == '\r' && i + 1 < |s| && s[i + 1] == '\n' {
          SplitOneLine(s[i + 2..]);
        } else {
          SplitOneLine(s[i + 1..]);
        }
      } else {
        assert s[..i] == s;
      }
    }
  }

  /** "\n".join. */
  function Join(lines: seq<string>): string {
    if lines == [] then ""
    else if |lines| == 1 then lines[0]
    else lines[0] + ['\n'] + Join(lines[1..])
  }

  // ---------------------------------------------------------------- the three functions

  function ItemLines(items: seq<string>): seq<string> {
    if items == [] then [] else ["  - " + items[0]] + ItemLines(items[1..])
  }

  function EntryLines(e: Entry): seq<string> {
    match e.value
    case Scalar(text) => [e.key + ": " + text]
    case Items(items) => [e.key + ":"] + ItemLines(items)
  }

  function Lines(data: seq<Entry>): seq<string> {
    if data == [] then [] else EntryLines(data[0]) + Lines(data[1..])
  }

  /** `_frontmatter`. */
  function Print(data: seq<Entry>): string {
    Join(["---"] + Lines(data) + ["---", ""])
  }

  /** `_strip_frontmatter`. */
  function Strip(text: string): string {
    if !("---\n" <= text) then text
    else
      match Find(text, "\n---", 4)
      case None => text
      case Some(end) =>
        match Find(text, "\n", end + 4)
        case None => ""
        case Some(rest) => text[rest + 1..]
  }

  /** One line of the block: a key and a value, unless it is indented or has no colon. */
  function ParseLine(metadata: map<string, string>, line: string): map<string, string> {
    var colon := IndexOf(line, ':', 0);
    if colon == |line| || " " <= line then metadata
    else metadata[Trim(line[..colon]) := Trim(line[colon + 1..])]
  }

  function ParseLines(metadata: map<string, string>, lines: seq<string>): map<string, string>
    decreases |lines|
  {
    if lines == [] then metadata else ParseLines(ParseLine(metadata, lines[0]), lines[1..])
  }

  /** `_parse_frontmatter`. */
  function Parse(text: string): map<string, string> {
    if !("---\n" <= text) then map[]
    else
      match Find(text, "\n---", 4)
      case None => map[]
      case Some(end) => ParseLines(map[], SplitLines(text[4..end]))
  }

  // ---------------------------------------------------------------- the loops

  /** The lines of one entry, appended. */
  method AppendEntry(before: seq<string>, e: Entry) returns (lines: seq<string>)
    ensures lines == before + EntryLines(e)
  {
    match e.value {
      case Scalar(text) =>
        lines := before + [e.key + ": " + text];
      case Items(items) =>
        lines := before + [e.key + ":"];
        for i := 0 to |items|
          invariant lines + ItemLines(items[i..]) == before + EntryLines(e)
        {
          assert items[i..] == [items[i]] + items[i + 1..];
          ItemFirst(lines, items[i], items[i + 1..]);
          lines := lines + ["  - " + items[i]];
        }
    }
  }

  lemma ItemFirst(lines: seq<string>, item: string, items: seq<string>)
    ensures lines + ItemLines([item] + items) == lines + ["  - " + item] + ItemLines(items)
  {
    assert ([item] + items)[1..] == items;
  }

  lemma EntryFirst(lines: seq<string>, e: Entry, data: seq<Entry>)
    ensures lines + Lines([e] + data) == lines + EntryLines(e) + Lines(data)
  {
    assert ([e] + data)[1..] == data;
  }

  /** The printing loop. */
  method PrintFrontmatter(data: seq<Entry>) returns (text: string)
    ensures text == Print(data)
  {
    var lines := ["---"];
    for i := 0 to |data|
      invariant lines + Lines(data[i..]) == ["---"] + Lines(data)
    {
      assert data[i..] == [data[i]] + data[i + 1..];
      EntryFirst(lines, data[i], data[i + 1..]);
      lines := AppendEntry(lines, data[i]);
    }
    assert lines + [] == lines;
    text := Join(lines + ["---", ""]);
  }

  /** The parsing loop. */
  method ParseFrontmatter(text: string) returns (metadata: map<string, string>)
    ensures metadata == Parse(text)
  {
    metadata := map[];
    if !("---\n" <= text) {
      return;
    }
    var end := Find(text, "\n---", 4);
    if end.None? {
      return;
    }
    var lines := SplitLines(text[4..end.value]);
    for i := 0 to |lines|
      invariant ParseLines(metadata, lines[i..]) == ParseLines(map[], lines)
    {
      var line := lines[i];
      assert lines[i..][0] == line && lines[i..][1..] == lines[i + 1..];
      var colon := IndexOf(line, ':', 0);
      if colon == |line| || " " <= line {
        continue;
      }
      metadata := metadata[Trim(line[..colon]) := Trim(line[colon + 1..])];
    }
  }

  // ---------------------------------------------------------------- what can be printed

  /** Trimmed, on one line, without a colon, and not looking like the closing fence. */
  predicate GoodKey(key: string) {
    OneLine(key) && ':' !in key && Trim(key) == key && !("---" <= key)
  }

  predicate GoodEntry(e: Entry) {
    && GoodKey(e.key)
    && match e.value
       case Scalar(text) => OneLine(text)
       case Items(items) => forall i :: i in items ==> OneLine(i)
  }

  predicate GoodData(data: seq<Entry>) {
    data != [] && forall e :: e in data ==> GoodEntry(e)
  }

  /** A line of the block: not empty and not the closing fence. */
  predicate BlockLine(l: string) {
    OneLine(l) && l != "" && !("---" <= l)
  }

  predicate BlockLines(lines: seq<string>) {
    forall l :: l in lines ==> BlockLine(l)
  }

  lemma OneLineAppend(a: string, b: string)
    requires OneLine(a) && OneLine(b)
    ensures OneLine(a + b)
  {
  }

  lemma {:induction false} ItemLinesBlock(items: seq<string>)
    requires forall i :: i in items ==> OneLine(i)
    ensures BlockLines(ItemLines(items))
  {
    if items != [] {
      OneLineAppend("  - ", items[0]);
      assert ("  - " + items[0])[0] == ' ';
      ItemLinesBlock(items[1..]);
    }
  }

  lemma KeyStarts(key: string, after: string)
    requires GoodKey(key) && OneLine(after)
    ensures BlockLine(key + ":" + after) && !(" " <= key + ":" + after)
  {
    var l := key + ":" + after;
    OneLineAppend(key, ":");
    OneLineAppend(key + ":", after);
    assert l[|key|] == ':' && forall k :: 0 <= k < |key| ==> l[k] == key[k];
    if key != "" {
      assert !IsSpace(key[0]) by {
        assert TrimLeft(key) == key by { TrimLeftShortens(key); }
      }
    }
  }

  lemma {:induction false} TrimLeftShortens(s: string)
    ensures |TrimLeft(s)| <= |s|
    ensures Trim(s) == s ==> TrimLeft(s) == s
  {
    if s != [] && IsSpace(s[0]) {
      TrimLeftShortens(s[1..]);
    }
  }

  lemma EntryLinesBlock(e: Entry)
    requires GoodEntry(e)
    ensures BlockLines(EntryLines(e))
  {
    match e.value
    case Scalar(text) =>
      OneLineAppend(" ", text);
      KeyStarts(e.key, " " + text);
      assert e.key + ": " + text == e.key + ":" + (" " + text);
    case Items(items) =>
      KeyStarts(e.key, "");
      assert e.key + ":" + "" == e.key + ":";
      ItemLinesBlock(items);
  }

  lemma {:induction false} LinesBlock(data: seq<Entry>)
    requires forall e :: e in data ==> GoodEntry(e)
    ensures BlockLines(Lines(data)) && |Lines(data)| >= |data|
  {
    if data != [] {
      EntryLinesBlock(data[0]);
      LinesBlock(data[1..]);
    }
  }

  /** Small letters and underscores, as in the keys the extraction job writes. */
  predicate IsWord(s: string) {
    s != "" && forall c :: c in s ==> 'a' <= c <= 'z' || c == '_'
  }

  lemma WordIsGoodKey(key: string)
    requires IsWord(key)
    ensures GoodKey(key)
  {
    assert key[0] in key && key[|key| - 1] in key;
  }

  // ---------------------------------------------------------------- finding the closing fence

  lemma {:induction false} JoinAppend(a: seq<string>, b: seq<string>)
    requires a != [] && b != []
    ensures Join(a + b) == Join(a) + ['\n'] + Join(b)
    decreases |a|
  {
    if |a| == 1 {
      assert (a + b)[1..] == b;
    } else {
      JoinAppend(a[1..], b);
      assert (a + b)[1..] == a[1..] + b && (a + b)[0] == a[0];
    }
  }

  /** Joined lines in front of a line feed start with their first line, cut off by a line feed. */
  lemma FirstLine(lines: seq<string>, tail: string) returns (more: string)
    requires lines != [] && tail != [] && tail[0] == '\n'
    ensures Join(lines) + tail == lines[0] + ['\n'] + more
    ensures |lines| > 1 ==> more == Join(lines[1..]) + tail
  {
    more := if |lines| == 1 then tail[1..] else Join(lines[1..]) + tail;
    assert tail == ['\n'] + tail[1..];
  }

  /** A fence needs a line that starts with it. */
  lemma NoFenceAt(line: string, more: string, k: nat)
    requires OneLine(line) && Occurs(line + ['\n'] + more, "\n---", k) && k <= |line|
    ensures k == |line| && |more| >= 3 && more[..3] == "---"
  {
    var s := line + ['\n'] + more;
    assert s[k] == s[k..k + 4][0];
    assert forall i :: 0 <= i < |line| ==> s[i] == line[i] && line[i] in line;
    assert s[k..k + 4][1..] == more[..3];
  }

  lemma NotStarting(line: string, more: string)
    requires !("---" <= line)
    ensures (line + ['\n'] + more)[..if |line| + 1 + |more| < 3 then |line| + 1 + |more| else 3] != "---"
  {
    var s := line + ['\n'] + more;
    assert s[|line|] == '\n' && forall i :: 0 <= i < |line| ==> s[i] == line[i];
    assert |line| >= 3 ==> s[..3] == line[..3];
    assert |line| < 3 && |s| >= 3 ==> s[..3][|line|] == '\n';
  }

  lemma {:induction false} NoFence(lines: seq<string>, tail: string, k: nat)
    requires lines != [] && BlockLines(lines) && tail != [] && tail[0] == '\n' && k < |Join(lines)|
    ensures !Occurs(Join(lines) + tail, "\n---", k)
    decreases |lines|
  {
    var more := FirstLine(lines, tail);
    var s := Join(lines) + tail;
    assert lines[0] in lines;
    if Occurs(s, "\n---", k) {
      if k <= |lines[0]| {
        NoFenceAt(lines[0], more, k);
        var next := FirstLine(lines[1..], tail);
        assert lines[1] in lines && lines[1..][0] == lines[1];
        NotStarting(lines[1], next);
      } else {
        var j := k - |lines[0]| - 1;
        assert more[j..j + 4] == s[k..k + 4];
        NoFence(lines[1..], tail, j);
      }
    }
  }

  lemma Shape(j: string, body: string)
    ensures "---" + ['\n'] + (j + ['\n'] + ("---" + ['\n'] + "")) + body == "---\n" + (j + ("\n---\n" + body))
  {
    assert "---" + ['\n'] == "---\n" && ['\n'] + ("---" + ['\n'] + "") + body == "\n---\n" + body;
  }

  lemma JoinFence(l: seq<string>)
    requires l != []
    ensures Join(["---"] + l + ["---", ""]) == "---" + ['\n'] + (Join(l) + ['\n'] + ("---" + ['\n'] + ""))
  {
    JoinAppend(["---"], l + ["---", ""]);
    JoinAppend(l, ["---", ""]);
    JoinAppend(["---"], [""]);
    assert ["---"] + l + ["---", ""] == ["---"] + (l + ["---", ""]) && ["---", ""] == ["---"] + [""];
  }

  /** What is printed, followed by any text. */
  lemma PrintShape(data: seq<Entry>, body: string)
    requires Lines(data) != []
    ensures Print(data) + body == "---\n" + (Join(Lines(data)) + ("\n---\n" + body))
  {
    JoinFence(Lines(data));
    Shape(Join(Lines(data)), body);
  }

  lemma FindUnique(s: string, pat: string, from: nat, i: nat)
    requires from <= i && Occurs(s, pat, i) && forall k :: from <= k < i ==> !Occurs(s, pat, k)
    ensures Find(s, pat, from) == Some(i)
  {
  }

  lemma OccursBehind(head: string, s: string, pat: string, k: nat)
    ensures Occurs(head + s, pat, |head| + k) <==> Occurs(s, pat, k)
  {
    if k + |pat| <= |s| {
      assert (head + s)[|head| + k..|head| + k + |pat|] == s[k..k + |pat|];
    }
  }

  /** Where the block, the fence and the body are in a printed text. */
  lemma Sections(j: string, body: string, text: string)
    requires text == "---\n" + (j + ("\n---\n" + body))
    ensures Occurs(text, "\n---", 4 + |j|) && Occurs(text, "\n", 4 + |j| + 4)
    ensures text[4..4 + |j|] == j && text[4 + |j| + 5..] == body
  {
    var tail, end := "\n---\n" + body, 4 + |j|;
    assert text[4..] == j + tail && text[end..] == tail;
    assert text[end..end + 4] == tail[..4] == "\n---";
    assert text[end + 4..end + 5] == tail[4..5] == "\n";
    assert text[end + 5..] == tail[5..] == body;
  }

  lemma FenceFound(lines: seq<string>, body: string, text: string)
    requires lines != [] && BlockLines(lines) && text == "---\n" + (Join(lines) + ("\n---\n" + body))
    ensures Find(text, "\n---", 4) == Some(4 + |Join(lines)|)
    ensures Find(text, "\n", 4 + |Join(lines)| + 4) == Some(4 + |Join(lines)| + 4)
    ensures text[4..4 + |Join(lines)|] == Join(lines) && text[4 + |Join(lines)| + 5..] == body
  {
    var j, tail := Join(lines), "\n---\n" + body;
    var end := 4 + |j|;
    Sections(j, body, text);
    forall k | 4 <= k < end
      ensures !Occurs(text, "\n---", k)
    {
      NoFence(lines, tail, k - 4);
      OccursBehind("---\n", j + tail, "\n---", k - 4);
    }
    FindUnique(text, "\n---", 4, end);
    FindUnique(text, "\n", end + 4, end + 4);
  }

  /** Stripping what was printed leaves the body, whatever it contains. */
  lemma StripPrint(data: seq<Entry>, body: string)
    requires GoodData(data)
    ensures Strip(Print(data) + body) == body
  {
    LinesBlock(data);
    PrintShape(data, body);
    FenceFound(Lines(data), body, Print(data) + body);
  }

  // ---------------------------------------------------------------- reading the block back

  lemma BreakInside(s: string, i: nat, k: nat)
    requires k < i <= |s| && IsBreak(s[k])
    ensures !OneLine(s[..i])
  {
    assert s[..i][k] == s[k] && s[..i][k] in s[..i];
  }

  lemma LineEndUnique(s: string, i: nat)
    requires i <= |s| && OneLine(s[..i]) && (i < |s| ==> IsBreak(s[i]))
    ensures LineEnd(s) == i
  {
    if LineEnd(s) < i {
      BreakInside(s, i, LineEnd(s));
    } else if i < LineEnd(s) {
      BreakInside(s, LineEnd(s), i);
    }
  }

  lemma LineEndAt(line: string, more: string)
    requires OneLine(line)
    ensures LineEnd(line + ['\n'] + more) == |line| && LineEnd(line) == |line|
  {
    assert (line + ['\n'] + more)[..|line|] == line && line[..|line|] == line;
    LineEndUnique(line + ['\n'] + more, |line|);
    LineEndUnique(line, |line|);
  }

  lemma {:induction false} SplitJoin(lines: seq<string>)
    requires BlockLines(lines)
    ensures SplitLines(Join(lines)) == lines
    decreases |lines|
  {
    if lines != [] {
      assert lines[0] in lines;
      if |lines| == 1 {
        LineEndAt(lines[0], "");
      } else {
        var more := Join(lines[1..]);
        LineEndAt(lines[0], more);
        SplitJoin(lines[1..]);
        var s := lines[0] + ['\n'] + more;
        assert s[|lines[0]| + 1..] == more && s[..|lines[0]|] == lines[0];
      }
    }
  }

  /** What reading an entry back gives: a scalar trimmed, a list empty. */
  function Meaning(v: Value): string {
    match v
    case Scalar(text) => Trim(text)
    case Items(_) => ""
  }

  function Metadata(acc: map<string, string>, data: seq<Entry>): map<string, string>
    decreases |data|
  {
    if data == [] then acc else Metadata(acc[data[0].key := Meaning(data[0].value)], data[1..])
  }

  lemma ColonAt(key: string, after: string)
    requires ':' !in key
    ensures IndexOf(key + ":" + after, ':', 0) == |key|
  {
    assert key + ":" + after == key + [':'] + after;
    IndexOfFirst(key, ':', after);
  }

  lemma KeyLineReads(m: map<string, string>, key: string, after: string)
    requires GoodKey(key) && OneLine(after)
    ensures ParseLine(m, key + ":" + after) == m[key := Trim(after)]
  {
    var l := key + ":" + after;
    KeyStarts(key, after);
    ColonAt(key, after);
    assert l[..|key|] == key && l[|key| + 1..] == after;
  }

  lemma {:induction false} ItemsSkipped(m: map<string, string>, items: seq<string>, rest: seq<string>)
    ensures ParseLines(m, ItemLines(items) + rest) == ParseLines(m, rest)
    decreases |items|
  {
    if items == [] {
      assert ItemLines(items) + rest == rest;
    } else {
      var l := "  - " + items[0];
      assert l[0] == ' ' && " " <= l;
      assert ItemLines(items) + rest == [l] + (ItemLines(items[1..]) + rest);
      ItemsSkipped(m, items[1..], rest);
      ParseFirst(m, l, ItemLines(items[1..]) + rest);
    }
  }

  lemma ParseFirst(m: map<string, string>, l: string, rest: seq<string>)
    ensures ParseLines(m, [l] + rest) == ParseLines(ParseLine(m, l), rest)
  {
    assert ([l] + rest)[1..] == rest;
  }

  lemma ScalarReads(m: map<string, string>, key: string, text: string, rest: seq<string>)
    requires GoodKey(key) && OneLine(text)
    ensures ParseLines(m, [key + ": " + text] + rest) == ParseLines(m[key := Trim(text)], rest)
  {
    OneLineAppend(" ", text);
    KeyLineReads(m, key, " " + text);
    assert key + ": " + text == key + ":" + (" " + text);
    assert (" " + text)[1..] == text;
    ParseFirst(m, key + ": " + text, rest);
  }

  lemma ItemsRead(m: map<string, string>, key: string, items: seq<string>, rest: seq<string>)
    requires GoodKey(key)
    ensures ParseLines(m, [key + ":"] + ItemLines(items) + rest) == ParseLines(m[key := ""], rest)
  {
    KeyLineReads(m, key, "");
    assert key + ":" + "" == key + ":";
    assert [key + ":"] + ItemLines(items) + rest == [key + ":"] + (ItemLines(items) + rest);
    ParseFirst(m, key + ":", ItemLines(items) + rest);
    ItemsSkipped(m[key := ""], items, rest);
  }

  lemma EntryReads(m: map<string, string>, e: Entry, rest: seq<string>)
    requires GoodEntry(e)
    ensures ParseLines(m, EntryLines(e) + rest) == ParseLines(m[e.key := Meaning(e.value)], rest)
  {
    match e.value
    case Scalar(text) => ScalarReads(m, e.key, text, rest);
    case Items(items) => ItemsRead(m, e.key, items, rest);
  }

  lemma {:induction false} LinesRead(m: map<string, string>, data: seq<Entry>)
    requires forall e :: e in data ==> GoodEntry(e)
    ensures ParseLines(m, Lines(data)) == Metadata(m, data)
    decreases |data|
  {
    if data != [] {
      EntryReads(m, data[0], Lines(data[1..]));
      LinesRead(m[data[0].key := Meaning(data[0].value)], data[1..]);
    }
  }

  /** Parsing what was printed gives every entry's meaning, whatever body follows. */
  lemma ParsePrint(data: seq<Entry>, body: string)
    requires GoodData(data)
    ensures Parse(Print(data) + body) == Metadata(map[], data)
  {
    LinesBlock(data);
    PrintShape(data, body);
    FenceFound(Lines(data), body, Print(data) + body);
    SplitJoin(Lines(data));
    LinesRead(map[], data);
  }

  /** Different header lines or bodies print differently. */
  lemma PrintInjective(data: seq<Entry>, body: string, data': seq<Entry>, body': string)
    requires GoodData(data) && GoodData(data') && Print(data) + body == Print(data') + body'
    ensures Lines(data) == Lines(data') && body == body'
  {
    LinesBlock(data);
    LinesBlock(data');
    PrintShape(data, body);
    PrintShape(data', body');
    FenceFound(Lines(data), body, Print(data) + body);
    FenceFound(Lines(data'), body', Print(data') + body');
    SplitJoin(Lines(data));
    SplitJoin(Lines(data'));
  }

  /** With different keys, every key reads back as its own value and there are no others. */
  lemma {:induction false} MetadataExact(acc: map<string, string>, data: seq<Entry>)
    requires forall i, j :: 0 <= i < j < |data| ==> data[i].key != data[j].key
    ensures forall k :: k in Metadata(acc, data) <==> k in acc || exists e :: e in data && e.key == k
    ensures forall e :: e in data ==> e.key in Metadata(acc, data) && Metadata(acc, data)[e.key] == Meaning(e.value)
    ensures forall k :: k in acc && (forall e :: e in data ==> e.key != k) ==> Metadata(acc, data)[k] == acc[k]
    decreases |data|
  {
    if data != [] {
      MetadataExact(acc[data[0].key := Meaning(data[0].value)], data[1..]);
      forall e | e in data[1..]
        ensures e.key != data[0].key
      {
        var j :| 0 <= j < |data| - 1 && data[1..][j] == e;
        assert data[j + 1] == e;
      }
      assert forall e :: e in data <==> e == data[0] || e in data[1..];
    }
  }
}
