/**
  Printing edit scripts and applying what was printed.

  Scripts are printed as the diff utility's "Diff -u or -U Output Format" (IEEE Std 1003.1) prescribes: a range of
  one line has no count, and an empty range names the line before it.
 */
module PatchRoundTrip {
  import opened Wrappers
  import opened Text
  import opened EditScripts
  import opened UnifiedDiff

  // ---------------------------------------------------------------- printing

  function PrintRange(first: nat, count: nat): string {
    if count == 1 then Decimal(first + 1)
    else if count == 0 then Decimal(first) + [','] + "0"
    else Decimal(first + 1) + [','] + Decimal(count)
  }

  function Header(oldRange: string, newRange: string): Line {
    "@@ " + ("-" + oldRange) + [' '] + ("+" + newRange + " @@")
  }

  function PrintHeader(h: Hunk<Line>, newAt: nat): Line {
    Header(PrintRange(h.at, |OldOf(h.edits)|), PrintRange(newAt, |NewOf(h.edits)|))
  }

  function PrintEdit(e: Edit<Line>): Line {
    match e
    case Keep(line) => " " + line
    case Remove(line) => "-" + line
    case Insert(line) => "+" + line
  }

  function PrintEdits(edits: seq<Edit<Line>>): seq<Line> {
    if edits == [] then [] else [PrintEdit(edits[0])] + PrintEdits(edits[1..])
  }

  function PrintHunk(h: Hunk<Line>, newAt: nat): seq<Line> {
    [PrintHeader(h, newAt)] + PrintEdits(h.edits)
  }

  function PrintHunks(script: Script<Line>, shift: int): seq<Line> {
    if script.Done? then []
    else PrintHunk(script.hunk, NewAt(script.hunk.at, shift)) + PrintHunks(script.later, shift + Shift(script.hunk))
  }

  /** The whole diff, with its two file headers. */
  function Top(path: string): seq<Line> { ["--- " + ("a/" + path), "+++ " + ("b/" + path)] }

  function Print(path: string, script: Script<Line>): seq<Line> {
    Top(path) + PrintHunks(script, 0)
  }

  // ---------------------------------------------------------------- reading back what was printed

  lemma StripDashesDecimal(n: nat)
    ensures StripDashes("-" + Decimal(n)) == Decimal(n)
  {
    var d := Decimal(n);
    assert IsDigit(d[0]) by { assert d[0] in d; }
    assert ("-" + d)[1..] == d;
  }

  lemma BeforeComma(d: string, counted: string)
    requires forall c :: c in d ==> IsDigit(c)
    ensures Before("-" + (d + [','] + counted), ',') == "-" + d && Before("-" + d, ',') == "-" + d
  {
    assert ',' !in "-" + d;
    IndexOfNone("-" + d, ',');
    IndexOfFirst("-" + d, ',', counted);
    assert "-" + (d + [','] + counted) == "-" + d + [','] + counted;
  }

  /** The start of a printed range: its first line, or the line before an empty one. */
  lemma RangeStart(first: nat, count: nat)
    ensures ParseInt(StripDashes(Before("-" + PrintRange(first, count), ',')))
      == Some(if count == 0 then first else first + 1)
  {
    var start := if count == 0 then first else first + 1;
    BeforeComma(Decimal(start), if count == 0 then "0" else Decimal(count));
    StripDashesDecimal(start);
    ParseDecimal(start);
  }

  lemma RangeHasNoBlank(first: nat, count: nat)
    ensures ' ' !in PrintRange(first, count)
  {
    assert ' ' !in Decimal(first) && ' ' !in Decimal(first + 1) && ' ' !in Decimal(count) && ' ' !in "0";
  }

  lemma HeaderField(line: Line, range: string, tail: string)
    requires line == "@@ " + ("-" + range) + [' '] + tail && ' ' !in range
    ensures IsHunkHeader(line)
    ensures OldStart(line) == ParseInt(StripDashes(Before("-" + range, ',')))
  {
    assert line[0] == '@' && line[1] == '@' && line[2] == ' ';
    assert IndexOf(line, ' ', 0) == 2;
    FieldEnd(line, "@@ ", "-" + range, tail);
  }

  lemma HeaderReads(h: Hunk<Line>, newAt: nat)
    ensures IsHunkHeader(PrintHeader(h, newAt))
    ensures OldStart(PrintHeader(h, newAt)) == Some(if OldOf(h.edits) == [] then h.at else h.at + 1)
  {
    RangeReads(h.at, |OldOf(h.edits)|, PrintRange(newAt, |NewOf(h.edits)|));
  }

  lemma RangeReads(first: nat, count: nat, newRange: string)
    ensures IsHunkHeader(Header(PrintRange(first, count), newRange))
    ensures OldStart(Header(PrintRange(first, count), newRange)) == Some(if count == 0 then first else first + 1)
  {
    var range := PrintRange(first, count);
    RangeStart(first, count);
    RangeHasNoBlank(first, count);
    HeaderField(Header(range, newRange), range, "+" + newRange + " @@");
  }

  /** The blank after a field without blanks ends it. */
  lemma FieldEnd(line: string, head: string, field: string, tail: string)
    requires line == head + field + [' '] + tail && ' ' !in field
    ensures IndexOf(line, ' ', |head|) == |head| + |field|
    ensures line[|head|..IndexOf(line, ' ', |head|)] == field
  {
    assert line[|head| + |field|] == ' ';
    assert forall k :: |head| <= k < |head| + |field| ==> line[k] == field[k - |head|] && line[k] in field;
  }

  // ---------------------------------------------------------------- applying a printed script

  /** The cursor after passing `olds` in the original and writing `news`. */
  function Moved(c: Cursor, olds: seq<Line>, news: seq<Line>, changes: nat): Cursor {
    Cursor(c.result + news, c.oldIndex + |olds|, c.applied + changes, true)
  }

  function After(c: Cursor, edits: seq<Edit<Line>>): Cursor {
    Moved(c, OldOf(edits), NewOf(edits), Changes(edits))
  }

  lemma MovedTwice(c: Cursor, o: seq<Line>, n: seq<Line>, w: nat, o': seq<Line>, n': seq<Line>, w': nat)
    ensures Moved(Moved(c, o, n, w), o', n', w') == Moved(c, o + o', n + n', w + w')
  {
    assert c.result + n + n' == c.result + (n + n');
  }

  lemma AtSplit(file: seq<Line>, k: nat, a: seq<Line>, b: seq<Line>)
    requires At(file, k, a + b)
    ensures At(file, k, a) && At(file, k + |a|, b)
  {
    var s := file[k..k + |a + b|];
    assert s[..|a|] == a && s[|a|..] == b;
    assert s[..|a|] == file[k..k + |a|];
    assert s[|a|..] == file[k + |a|..k + |a| + |b|];
  }

  /** There are no such lines, or they are at position k: without old lines the position may even be past the end. */
  predicate Finds(file: seq<Line>, k: nat, olds: seq<Line>) { olds == [] || At(file, k, olds) }

  lemma FindsSplit(file: seq<Line>, k: nat, a: seq<Line>, b: seq<Line>)
    ensures Finds(file, k, a + b) <==> Finds(file, k, a) && Finds(file, k + |a|, b)
  {
    if a == [] {
      assert a + b == b;
    } else if b == [] {
      assert a + b == a;
    } else if At(file, k, a + b) {
      AtSplit(file, k, a, b);
    }
  }

  lemma AtOne(file: seq<Line>, k: nat, line: Line)
    ensures At(file, k, [line]) <==> k < |file| && file[k] == line
  {
    if k < |file| {
      assert file[k..k + 1] == [file[k]];
    }
  }

  /** One printed edit moves both cursors as the edit says, or is refused where the file has another line. */
  lemma EditApplies(file: seq<Line>, c: Cursor, e: Edit<Line>)
    requires c.inHunk
    ensures Step(file, c, PrintEdit(e))
         == if Finds(file, c.oldIndex, Olds(e)) then Some(Moved(c, Olds(e), News(e), Weight(e))) else None
  {
    var p := PrintEdit(e);
    assert p[1..] == e.line;
    assert !IsHunkHeader(p) by { assert p[0] != "@@"[0]; }
    assert c.result + [] == c.result;
    AtOne(file, c.oldIndex, e.line);
  }

  /** One line more at the front of the diff. */
  lemma StepsCons(file: seq<Line>, c: Cursor, line: Line, rest: seq<Line>, next: Cursor, end: Option<Cursor>)
    requires Step(file, c, line) == Some(next) && Replays(file, next, rest, end)
    ensures Replays(file, c, [line] + rest, end)
  {
    assert ([line] + rest)[1..] == rest;
  }

  lemma StepsFail(file: seq<Line>, c: Cursor, line: Line, rest: seq<Line>)
    requires Step(file, c, line) == None
    ensures Replays(file, c, [line] + rest, None)
  {
    assert ([line] + rest)[0] == line;
  }

  lemma EditFirst(file: seq<Line>, c: Cursor, e: Edit<Line>, rest: seq<Line>, next: Cursor, end: Option<Cursor>)
    requires c.inHunk && Finds(file, c.oldIndex, Olds(e))
    requires next == Moved(c, Olds(e), News(e), Weight(e)) && Replays(file, next, rest, end)
    ensures Replays(file, c, [PrintEdit(e)] + rest, end)
  {
    EditApplies(file, c, e);
    StepsCons(file, c, PrintEdit(e), rest, next, end);
  }

  /** The cursor after the first edit is where the later ones start. */
  lemma AfterFirst(file: seq<Line>, c: Cursor, edits: seq<Edit<Line>>, next: Cursor)
    requires edits != [] && next == Moved(c, Olds(edits[0]), News(edits[0]), Weight(edits[0]))
    ensures Finds(file, c.oldIndex, OldOf(edits))
      <==> Finds(file, c.oldIndex, Olds(edits[0])) && Finds(file, next.oldIndex, OldOf(edits[1..]))
    ensures After(next, edits[1..]) == After(c, edits)
  {
    var e, later := edits[0], edits[1..];
    FindsSplit(file, c.oldIndex, Olds(e), OldOf(later));
    MovedTwice(c, Olds(e), News(e), Weight(e), OldOf(later), NewOf(later), Changes(later));
  }

  lemma PrintEditsFirst(edits: seq<Edit<Line>>, rest: seq<Line>, printed: seq<Line>)
    requires printed == PrintEdits(edits) + rest
    ensures edits == [] ==> printed == rest
    ensures edits != [] ==> printed == [PrintEdit(edits[0])] + (PrintEdits(edits[1..]) + rest)
  {
  }

  /** The edits of a hunk apply exactly when its old lines are where the cursor is. */
  lemma {:induction false} EditsApply(file: seq<Line>, c: Cursor, edits: seq<Edit<Line>>, rest: seq<Line>, last: Cursor,
                                      end: Option<Cursor>)
    requires c.inHunk && last == After(c, edits)
    requires if Finds(file, c.oldIndex, OldOf(edits)) then Replays(file, last, rest, end) else end.None?
    ensures Replays(file, c, PrintEdits(edits) + rest, end)
    decreases |edits|
  {
    PrintEditsFirst(edits, rest, PrintEdits(edits) + rest);
    if edits == [] {
      assert c.result + NewOf(edits) == c.result;
    } else {
      var next := Moved(c, Olds(edits[0]), News(edits[0]), Weight(edits[0]));
      AfterFirst(file, c, edits, next);
      if Finds(file, c.oldIndex, Olds(edits[0])) {
        EditsApply(file, next, edits[1..], rest, last, end);
        EditFirst(file, c, edits[0], PrintEdits(edits[1..]) + rest, next, end);
      } else {
        EditApplies(file, c, edits[0]);
        StepsFail(file, c, PrintEdit(edits[0]), PrintEdits(edits[1..]) + rest);
      }
    }
  }

  /** The cursor once a hunk header naming position `at` has been read. */
  function Opened(file: seq<Line>, c: Cursor, at: nat): Cursor {
    Cursor(c.result + Slice(file, c.oldIndex, at), at, c.applied, true)
  }

  lemma HeaderStep(file: seq<Line>, c: Cursor, line: Line, start: nat, at: nat)
    requires IsHunkHeader(line) && OldStart(line) == Some(start) && at == if start > 0 then start - 1 else 0
    ensures Step(file, c, line) == Some(Opened(file, c, at))
  {
  }

  lemma HeaderApplies(file: seq<Line>, c: Cursor, h: Hunk<Line>, newAt: nat)
    ensures Step(file, c, PrintHeader(h, newAt)) == Some(Opened(file, c, ReadAt(h)))
  {
    HeaderReads(h, newAt);
    HeaderStep(file, c, PrintHeader(h, newAt), if OldOf(h.edits) == [] then h.at else h.at + 1, ReadAt(h));
  }

  lemma PrintHunkFirst(h: Hunk<Line>, newAt: nat, rest: seq<Line>)
    ensures PrintHunk(h, newAt) + rest == [PrintHeader(h, newAt)] + (PrintEdits(h.edits) + rest)
  {
  }

  lemma HunkApplies(file: seq<Line>, c: Cursor, h: Hunk<Line>, newAt: nat, rest: seq<Line>, atHunk: Cursor,
                    next: Cursor, printed: seq<Line>, end: Option<Cursor>)
    requires printed == PrintHunk(h, newAt) + rest
    requires atHunk == Opened(file, c, ReadAt(h)) && next == After(atHunk, h.edits)
    requires if Finds(file, ReadAt(h), OldOf(h.edits)) then Replays(file, next, rest, end) else end.None?
    ensures Replays(file, c, printed, end)
  {
    EditsApply(file, atHunk, h.edits, rest, next, end);
    HeaderApplies(file, c, h, newAt);
    StepsCons(file, c, PrintHeader(h, newAt), PrintEdits(h.edits) + rest, atHunk, end);
    PrintHunkFirst(h, newAt, rest);
  }

  /** Every hunk with old lines finds them where the applier looks for them. */
  predicate Found(file: seq<Line>, script: Script<Line>) {
    script.Done? || (Finds(file, ReadAt(script.hunk), OldOf(script.hunk.edits)) && Found(file, script.later))
  }

  /** The end, once the rest of the original follows, is the landing behind what c had built. */
  ghost predicate Lands(file: seq<Line>, c: Cursor, landing: seq<Line>, changes: nat, end: Option<Cursor>) {
    && end.Some?
    && end.value.result + Slice(file, end.value.oldIndex, |file|) == c.result + landing
    && end.value.applied == c.applied + changes
  }

  lemma LandsFirst(file: seq<Line>, c: Cursor, news: seq<Line>, keep: seq<Line>, changes: nat, next: Cursor,
                   l: seq<Line>, later: nat, end: Option<Cursor>)
    requires next.result == c.result + keep + news && next.applied == c.applied + changes
    requires Lands(file, next, l, later, end)
    ensures Lands(file, c, keep + news + l, changes + later, end)
  {
    assert c.result + keep + news + l == c.result + (keep + news + l);
  }

  lemma LandsStep(file: seq<Line>, c: Cursor, script: Script<Line>, next: Cursor, end: Option<Cursor>)
    requires script.Then? && next == After(Opened(file, c, ReadAt(script.hunk)), script.hunk.edits)
    requires Lands(file, next, Landing(file, script.later, next.oldIndex), AllChanges(script.later), end)
    ensures Lands(file, c, Landing(file, script, c.oldIndex), AllChanges(script), end)
  {
    var h, l := script.hunk, Landing(file, script.later, next.oldIndex);
    LandingFirst(file, script, c.oldIndex, next.oldIndex, l);
    LandsFirst(file, c, NewOf(h.edits), Slice(file, c.oldIndex, ReadAt(h)), Changes(h.edits), next, l,
               AllChanges(script.later), end);
  }

  lemma PrintHunksFirst(script: Script<Line>, shift: int, later: seq<Line>)
    requires script.Then? && later == PrintHunks(script.later, shift + Shift(script.hunk))
    ensures PrintHunks(script, shift) == PrintHunk(script.hunk, NewAt(script.hunk.at, shift)) + later
  {
  }

  lemma NothingApplies(file: seq<Line>, c: Cursor)
    ensures Replays(file, c, [], Some(c)) && Lands(file, c, Landing(file, Done, c.oldIndex), 0, Some(c))
  {
  }

  /** The printed hunks apply exactly when every hunk finds its old lines, and then land where the cursors end up. */
  lemma {:induction false} HunksApply(file: seq<Line>, c: Cursor, script: Script<Line>, shift: int, printed: seq<Line>)
    returns (end: Option<Cursor>)
    requires printed == PrintHunks(script, shift)
    ensures Replays(file, c, printed, end)
    ensures if Found(file, script) then Lands(file, c, Landing(file, script, c.oldIndex), AllChanges(script), end)
            else end.None?
    decreases script
  {
    if script.Done? {
      end := Some(c);
      NothingApplies(file, c);
    } else {
      var h := script.hunk;
      var atHunk := Opened(file, c, ReadAt(h));
      var next := After(atHunk, h.edits);
      var later := PrintHunks(script.later, shift + Shift(h));
      end := HunksApply(file, next, script.later, shift + Shift(h), later);
      if Found(file, script) {
        LandsStep(file, c, script, next, end);
      } else {
        end := None;
      }
      PrintHunksFirst(script, shift, later);
      HunkApplies(file, c, h, NewAt(h.at, shift), later, atHunk, next, printed, end);
    }
  }

  lemma {:induction false} MatchesFound(file: seq<Line>, script: Script<Line>, from: nat)
    requires Matches(file, script, from)
    ensures Found(file, script)
    decreases script
  {
    if script.Then? {
      MatchesFound(file, script.later, script.hunk.at + |OldOf(script.hunk.edits)|);
    }
  }

  // ---------------------------------------------------------------- the path check on a printed diff

  /** Edits whose printed line looks like a file header. */
  function Lookalikes(edits: seq<Edit<Line>>, removals: bool): nat {
    if edits == [] then 0
    else
      (if (if removals then edits[0].Remove? && "-- " <= edits[0].line else edits[0].Insert? && "++ " <= edits[0].line)
       then 1 else 0)
      + Lookalikes(edits[1..], removals)
  }

  function AllLookalikes(script: Script<Line>, removals: bool): nat {
    if script.Done? then 0 else Lookalikes(script.hunk.edits, removals) + AllLookalikes(script.later, removals)
  }

  function HeaderPrefix(removals: bool): string { if removals then "--- " else "+++ " }

  lemma {:induction false} StartingAppend(a: seq<Line>, b: seq<Line>, prefix: string)
    ensures Starting(a + b, prefix) == Starting(a, prefix) + Starting(b, prefix)
    decreases |a|
  {
    if a == [] {
      assert a + b == b;
    } else {
      assert (a + b)[0] == a[0] && (a + b)[1..] == a[1..] + b;
      StartingAppend(a[1..], b, prefix);
    }
  }

  lemma PrintedLookalike(e: Edit<Line>, removals: bool)
    ensures HeaderPrefix(removals) <= PrintEdit(e)
      <==> if removals then e.Remove? && "-- " <= e.line else e.Insert? && "++ " <= e.line
    ensures !RefusedLine(PrintEdit(e))
  {
    var p := PrintEdit(e);
    assert p[1..] == e.line && HeaderPrefix(removals)[1..] == (if removals then "-- " else "++ ");
    if HeaderPrefix(removals) <= p {
      assert p[0] == HeaderPrefix(removals)[0];
      assert p[1..4] == HeaderPrefix(removals)[1..];
    }
    forall r | r in REFUSED_HEADERS
      ensures !(r <= p)
    {
      assert r[0] == 'r' || r[0] == 'd' || r[0] == 'n' || r[0] == 'B';
      assert p[0] == ' ' || p[0] == '-' || p[0] == '+';
    }
  }

  lemma {:induction false} EditsLookalikes(edits: seq<Edit<Line>>, removals: bool)
    ensures |Starting(PrintEdits(edits), HeaderPrefix(removals))| == Lookalikes(edits, removals)
    ensures NoneRefused(PrintEdits(edits))
  {
    if edits != [] {
      EditsLookalikes(edits[1..], removals);
      PrintedLookalike(edits[0], removals);
    }
  }

  lemma HunkLookalikes(h: Hunk<Line>, newAt: nat, removals: bool)
    ensures |Starting(PrintHunk(h, newAt), HeaderPrefix(removals))| == Lookalikes(h.edits, removals)
    ensures NoneRefused(PrintHunk(h, newAt))
  {
    EditsLookalikes(h.edits, removals);
    PrintedHeaderPlain(h, newAt, removals);
    StartingAppend([PrintHeader(h, newAt)], PrintEdits(h.edits), HeaderPrefix(removals));
  }

  lemma {:induction false} HunksLookalikes(script: Script<Line>, shift: int, removals: bool, printed: seq<Line>)
    requires printed == PrintHunks(script, shift)
    ensures |Starting(printed, HeaderPrefix(removals))| == AllLookalikes(script, removals) && NoneRefused(printed)
    decreases script
  {
    if script.Then? {
      var later := PrintHunks(script.later, shift + Shift(script.hunk));
      HunksLookalikes(script.later, shift + Shift(script.hunk), removals, later);
      PrintHunksFirst(script, shift, later);
      HunkAndLater(PrintHunk(script.hunk, NewAt(script.hunk.at, shift)), later, removals);
      HunkLookalikes(script.hunk, NewAt(script.hunk.at, shift), removals);
    }
  }

  lemma HunkAndLater(hunk: seq<Line>, later: seq<Line>, removals: bool)
    ensures |Starting(hunk + later, HeaderPrefix(removals))|
         == |Starting(hunk, HeaderPrefix(removals))| + |Starting(later, HeaderPrefix(removals))|
    ensures NoneRefused(hunk) && NoneRefused(later) ==> NoneRefused(hunk + later)
  {
    StartingAppend(hunk, later, HeaderPrefix(removals));
  }

  lemma PrintedHeaderPlain(h: Hunk<Line>, newAt: nat, removals: bool)
    ensures Starting([PrintHeader(h, newAt)], HeaderPrefix(removals)) == []
    ensures !RefusedLine(PrintHeader(h, newAt))
  {
    assert PrintHeader(h, newAt)[0] == '@';
    forall r | r in REFUSED_HEADERS
      ensures !(r <= PrintHeader(h, newAt))
    {
      assert r[0] == 'r' || r[0] == 'd' || r[0] == 'n' || r[0] == 'B';
    }
  }

  // ---------------------------------------------------------------- the whole diff

  /** A path that survives the header: no white space to cut it at. */
  predicate PlainPath(path: string) {
    forall c :: c in path ==> !IsSpace(c)
  }

  lemma SideUntrimmed(side: string, path: string)
    requires (side == "a/" || side == "b/") && PlainPath(path)
    ensures var value := side + path;
      !IsSpace(value[0]) && !IsSpace(value[|value| - 1]) && '\t' !in value && ' ' !in value
  {
    var value := side + path;
    assert value[|value| - 1] == '/' || value[|value| - 1] in path;
  }

  lemma HeaderPathReads(mark: string, side: string, path: string)
    requires |mark| == 4 && (side == "a/" || side == "b/") && PlainPath(path)
    ensures HeaderPath(mark + (side + path)) == path
  {
    var header, value := mark + (side + path), side + path;
    assert header[4..] == value;
    SideUntrimmed(side, path);
    IndexOfNone(value, '\t');
    IndexOfNone(value, ' ');
    assert value[2..] == path;
  }

  /** No changed line is printed with what looks like a file header. */
  predicate Printable(script: Script<Line>) {
    AllLookalikes(script, true) == 0 && AllLookalikes(script, false) == 0
  }

  lemma TopHeaders(path: string)
    ensures Starting(Top(path), "--- ") == [Top(path)[0]]
    ensures Starting(Top(path), "+++ ") == [Top(path)[1]]
    ensures NoneRefused(Top(path))
  {
    var one, two := Top(path)[0], Top(path)[1];
    assert one[0] == '-' && two[0] == '+' && "--- " <= one && "+++ " <= two;
    assert Top(path) == [one] + [two];
    StartingAppend([one], [two], "--- ");
    StartingAppend([one], [two], "+++ ");
    forall r | r in REFUSED_HEADERS
      ensures !(r <= one) && !(r <= two)
    {
      assert r[0] == 'r' || r[0] == 'd' || r[0] == 'n' || r[0] == 'B';
    }
  }

  /** The file headers of a printed diff are its own two and the look-alikes. */
  lemma PrintedHeaders(path: string, script: Script<Line>, removals: bool)
    ensures var found := Starting(Print(path, script), HeaderPrefix(removals));
      |found| == 1 + AllLookalikes(script, removals) && found[0] == Top(path)[if removals then 0 else 1]
    ensures NoneRefused(Print(path, script))
  {
    HunksLookalikes(script, 0, removals, PrintHunks(script, 0));
    StartingAppend(Top(path), PrintHunks(script, 0), HeaderPrefix(removals));
    TopHeaders(path);
  }

  lemma OnlyHeaders(olds: seq<Line>, news: seq<Line>, path: string, matches: string -> bool)
    requires |olds| >= 1 && |news| >= 1 && HeaderPath(olds[0]) == path && HeaderPath(news[0]) == path
    requires path != "/dev/null" && matches(path)
    ensures HeadersNameTarget(olds, news, matches) <==> |olds| == 1 && |news| == 1
  {
  }

  /** The path check passes exactly when the only file headers are the two at the top. */
  lemma PrintedPathValid(path: string, script: Script<Line>, matches: string -> bool)
    requires PlainPath(path) && path != "/dev/null" && matches(path)
    ensures ValidPath(Print(path, script), matches) <==> Printable(script)
  {
    TopPaths(path);
    PrintedHeaders(path, script, true);
    PrintedHeaders(path, script, false);
    OnlyHeaders(Starting(Print(path, script), "--- "), Starting(Print(path, script), "+++ "), path, matches);
  }

  lemma TopPaths(path: string)
    requires PlainPath(path)
    ensures HeaderPath(Top(path)[0]) == path && HeaderPath(Top(path)[1]) == path
  {
    HeaderPathReads("--- ", "a/", path);
    HeaderPathReads("+++ ", "b/", path);
  }

  /** The two file headers are skipped. */
  lemma TopSkipped(file: seq<Line>, path: string, body: seq<Line>)
    ensures var c := Cursor([], 0, 0, false);
      Replays(file, c, Top(path) + body, Steps(file, c, body))
  {
    var c := Cursor([], 0, 0, false);
    var one, two := Top(path)[0], Top(path)[1];
    assert one[0] == '-' && two[0] == '+';
    StepsCons(file, c, two, body, c, Steps(file, c, body));
    StepsCons(file, c, one, [two] + body, c, Steps(file, c, body));
    assert Top(path) + body == [one] + ([two] + body);
  }

  /**
    Applying a printed script to any file: it is refused exactly when it changes nothing, a changed line reads as a file
    header, or the file does not have the old lines of some hunk where its header points; otherwise it yields the
    landing and the exact number of added plus removed lines.
   */
  lemma PrintedApplies(file: seq<Line>, script: Script<Line>, path: string, matches: string -> bool)
    requires PlainPath(path) && path != "/dev/null" && matches(path)
    ensures Apply(file, Print(path, script), matches)
         == if Printable(script) && AllChanges(script) > 0 && Found(file, script)
            then Patched(Landing(file, script, 0), AllChanges(script)) else Refused
  {
    PrintedPathValid(path, script, matches);
    TopSkipped(file, path, PrintHunks(script, 0));
    var c := Cursor([], 0, 0, false);
    var end := HunksApply(file, c, script, 0, PrintHunks(script, 0));
    assert c.result + Landing(file, script, 0) == Landing(file, script, 0);
  }

  /** The format's own meaning is kept exactly by the settled scripts. */
  lemma PatchRoundTripIff(file: seq<Line>, script: Script<Line>, path: string, matches: string -> bool)
    requires Matches(file, script, 0) && PlainPath(path) && path != "/dev/null" && matches(path)
    ensures Apply(file, Print(path, script), matches) == Patched(Target(file, script, 0), AllChanges(script))
       <==> Printable(script) && AllChanges(script) > 0 && Settled(file, script, 0)
  {
    MatchesFound(file, script, 0);
    PrintedApplies(file, script, path, matches);
    LandsOnTargetIff(file, script);
  }

  function SampleFile(): seq<Line> { ["one", "two"] }

  function SampleScript(): Script<Line> { Then(Hunk(1, [Insert("new")]), Done) }

  lemma SampleMatches()
    ensures Matches(SampleFile(), SampleScript(), 0)
    ensures Target(SampleFile(), SampleScript(), 0) == ["one", "new", "two"]
    ensures Landing(SampleFile(), SampleScript(), 0) == ["new", "one", "two"]
    ensures AllChanges(SampleScript()) == 1 && Printable(SampleScript())
  {
    var edits := SampleScript().hunk.edits;
    assert OldOf(edits) == [] && NewOf(edits) == ["new"];
    assert Changes(edits) == 1;
    assert !("++ " <= "new") by {
      assert "++ "[0] != "new"[0];
    }
    assert Lookalikes(edits, true) == 0 && Lookalikes(edits, false) == 0;
  }

  /** A diff without context that inserts after line 1 is applied before it. */
  lemma InsertionLandsEarly(path: string, matches: string -> bool)
    requires PlainPath(path) && path != "/dev/null" && matches(path)
    ensures Matches(SampleFile(), SampleScript(), 0)
    ensures Target(SampleFile(), SampleScript(), 0) == ["one", "new", "two"]
    ensures Apply(SampleFile(), Print(path, SampleScript()), matches) == Patched(["new", "one", "two"], 1)
  {
    SampleMatches();
    MatchesFound(SampleFile(), SampleScript(), 0);
    PrintedApplies(SampleFile(), SampleScript(), path, matches);
  }

  function LookalikeScript(): Script<Line> { Then(Hunk(0, [Remove("-- x"), Insert("y")]), Done) }

  lemma LookalikeMatches()
    ensures Matches(["-- x"], LookalikeScript(), 0) && Target(["-- x"], LookalikeScript(), 0) == ["y"]
    ensures !Printable(LookalikeScript())
  {
    var edits := LookalikeScript().hunk.edits;
    assert edits[1..] == [Insert("y")];
    assert OldOf(edits) == ["-- x"] && NewOf(edits) == ["y"];
    assert "-- " <= "-- x";
    assert Lookalikes(edits, true) >= 1;
  }

  /** Replacing a line that starts with two dashes and a space: the removal reads like a file header, and is refused. */
  lemma LookalikeRefused(path: string, matches: string -> bool)
    requires PlainPath(path) && path != "/dev/null" && matches(path)
    ensures Matches(["-- x"], LookalikeScript(), 0) && Target(["-- x"], LookalikeScript(), 0) == ["y"]
    ensures Apply(["-- x"], Print(path, LookalikeScript()), matches) == Refused
  {
    LookalikeMatches();
    PrintedApplies(["-- x"], LookalikeScript(), path, matches);
  }

  function StaleScript(): Script<Line> { Then(Hunk(0, [Keep("b"), Insert("c")]), Done) }

  /** A hunk whose context is another line than the file's is refused. */
  lemma StaleContextRefused(path: string, matches: string -> bool)
    requires PlainPath(path) && path != "/dev/null" && matches(path)
    ensures Apply(["a"], Print(path, StaleScript()), matches) == Refused
  {
    var edits := StaleScript().hunk.edits;
    assert edits[1..] == [Insert("c")];
    assert OldOf(edits) == ["b"];
    assert ["a"][0..1] == ["a"];
    assert !Found(["a"], StaleScript());
    PrintedApplies(["a"], StaleScript(), path, matches);
  }

  /** Applying a diff and then its inverse gives the original back, exactly when the inverse is settled as well. */
  lemma UndoRoundTripIff(file: seq<Line>, script: Script<Line>, path: string, matches: string -> bool)
    requires Matches(file, script, 0) && PlainPath(path) && path != "/dev/null" && matches(path)
    ensures var t := Target(file, script, 0);
      var back := Inverse(script, 0);
      Apply(t, Print(path, back), matches) == Patched(file, AllChanges(script))
      <==> Printable(back) && AllChanges(script) > 0 && Settled(t, back, 0)
  {
    var t := Target(file, script, 0);
    InverseMatches(file, script);
    InverseChanges(script, 0);
    PatchRoundTripIff(t, Inverse(script, 0), path, matches);
  }

  /** With an old and a new line in every hunk, patching and patching back is exact both ways. */
  lemma ThereAndBack(file: seq<Line>, script: Script<Line>, path: string, matches: string -> bool)
    requires Matches(file, script, 0) && PlainPath(path) && path != "/dev/null" && matches(path)
    requires AllChanges(script) > 0 && Printable(script) && Printable(Inverse(script, 0))
    requires EveryHunkHasOldLines(script) && EveryHunkHasOldLines(Inverse(script, 0))
    ensures var there := Apply(file, Print(path, script), matches);
      && there == Patched(Target(file, script, 0), AllChanges(script))
      && Apply(there.lines, Print(path, Inverse(script, 0)), matches) == Patched(file, there.applied)
  {
    OldLinesSettle(file, script, 0);
    OldLinesSettle(Target(file, script, 0), Inverse(script, 0), 0);
    PatchRoundTripIff(file, script, path, matches);
    UndoRoundTripIff(file, script, path, matches);
  }
}
