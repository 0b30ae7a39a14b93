/**
  The unified-diff applier: two cursors, one over the diff and one over the original file.  Files and
  diffs are sequences of lines without their newlines.
 */
module UnifiedDiff {
  import opened Wrappers
  import opened Text
  import opened EditScripts

  type Line = string

  // ---------------------------------------------------------------- the applier, line by line

  /** The result built so far, the cursor into the original, the changes counted, and whether a hunk is open. */
  datatype Cursor = Cursor(result: seq<Line>, oldIndex: nat, applied: nat, inHunk: bool)

  predicate IsHunkHeader(line: Line) { "@@" <= line }

  /** The start line of the old range: second blank-separated field, before its comma, without dashes. */
  function OldStart(line: Line): Option<int> {
    var first := IndexOf(line, ' ', 0);
    if first == |line| then None
    else ParseInt(StripDashes(Before(line[first + 1..IndexOf(line, ' ', first + 1)], ',')))
  }

  function StripDashes(s: string): string {
    if s != [] && s[0] == '-' then StripDashes(s[1..]) else s
  }

  /** What one diff line does; None is the exception. */
  function Step(file: seq<Line>, c: Cursor, line: Line): Option<Cursor> {
    if IsHunkHeader(line) then
      match OldStart(line)
      case None => None
      case Some(start) =>
        var target: nat := if start - 1 > 0 then start - 1 else 0;
        Some(Cursor(c.result + Slice(file, c.oldIndex, target), target, c.applied, true))
    else if !c.inHunk || line == [] then Some(c)
    else HunkLine(file, c, line[0], line[1..])
  }

  function HunkLine(file: seq<Line>, c: Cursor, marker: char, body: Line): Option<Cursor> {
    if marker == ' ' then
      if c.oldIndex >= |file| || file[c.oldIndex] != body then None
      else Some(c.(result := c.result + [file[c.oldIndex]], oldIndex := c.oldIndex + 1))
    else if marker == '-' then
      if c.oldIndex >= |file| || file[c.oldIndex] != body then None
      else Some(c.(oldIndex := c.oldIndex + 1, applied := c.applied + 1))
    else if marker == '+' then Some(c.(result := c.result + [body], applied := c.applied + 1))
    else Some(c)
  }

  function Steps(file: seq<Line>, c: Cursor, lines: seq<Line>): Option<Cursor>
    decreases |lines|
  {
    if lines == [] then Some(c)
    else
      match Step(file, c, lines[0])
      case None => None
      case Some(next) => Steps(file, next, lines[1..])
  }

  datatype Patched = Patched(lines: seq<Line>, applied: nat) | Refused

  function HeaderPath(header: Line): string {
    var value := Before(Before(Trim(if |header| >= 4 then header[4..] else ""), '\t'), ' ');
    if "a/" <= value || "b/" <= value then value[2..] else value
  }

  function Starting(lines: seq<Line>, prefix: string): seq<Line> {
    if lines == [] then []
    else (if prefix <= lines[0] then [lines[0]] else []) + Starting(lines[1..], prefix)
  }

  const REFUSED_HEADERS := ["rename from ", "rename to ", "deleted file mode ", "new file mode ", "Binary files "]

  /** The line announces a rename, a deletion, a creation or a binary patch. */
  predicate RefusedLine(line: Line) {
    exists r :: r in REFUSED_HEADERS && r <= line
  }

  predicate NoneRefused(lines: seq<Line>) {
    forall line :: line in lines ==> !RefusedLine(line)
  }

  /** The two file headers, when present, name the target; `matches` says whether a header path does. */
  predicate HeadersNameTarget(olds: seq<Line>, news: seq<Line>, matches: string -> bool) {
    if |olds| == 0 && |news| == 0 then true
    else if |olds| != 1 || |news| != 1 then false
    else
      var oldPath, newPath := HeaderPath(olds[0]), HeaderPath(news[0]);
      oldPath != "/dev/null" && newPath != "/dev/null" && matches(oldPath) && matches(newPath)
  }

  /** `validate_single_file_diff_path`. */
  predicate ValidPath(lines: seq<Line>, matches: string -> bool) {
    NoneRefused(lines) && HeadersNameTarget(Starting(lines, "--- "), Starting(lines, "+++ "), matches)
  }

  /** `apply_simple_unified_diff` as a fold over the diff lines. */
  function Apply(file: seq<Line>, lines: seq<Line>, matches: string -> bool): Patched {
    if !ValidPath(lines, matches) then Refused
    else Finish(file, Steps(file, Cursor([], 0, 0, false), lines))
  }

  /** No change at all is an error; otherwise the rest of the original follows. */
  function Finish(file: seq<Line>, end: Option<Cursor>): Patched {
    match end
    case None => Refused
    case Some(c) => if c.applied == 0 then Refused else Patched(c.result + Slice(file, c.oldIndex, |file|), c.applied)
  }

  /** The diff lines take the cursor c to the end. */
  ghost predicate Replays(file: seq<Line>, c: Cursor, lines: seq<Line>, end: Option<Cursor>) {
    Steps(file, c, lines) == end
  }

  lemma StepsHead(file: seq<Line>, c: Cursor, lines: seq<Line>, i: nat, end: Option<Cursor>)
    requires i < |lines| && Replays(file, c, lines[i..], end)
    ensures match Step(file, c, lines[i])
      case None => end.None?
      case Some(next) => Replays(file, next, lines[i + 1..], end)
  {
    assert lines[i..][0] == lines[i] && lines[i..][1..] == lines[i + 1..];
  }

  lemma StepsEnd(file: seq<Line>, c: Cursor, lines: seq<Line>, end: Option<Cursor>)
    requires Replays(file, c, lines[|lines|..], end)
    ensures end == Some(c)
  {
  }

  lemma StepsStart(file: seq<Line>, c: Cursor, lines: seq<Line>)
    ensures Replays(file, c, lines[0..], Steps(file, c, lines))
  {
    assert lines[0..] == lines;
  }

  /** The body of the inner loop. */
  method ApplyHunkLine(file: seq<Line>, line: Line, before: seq<Line>, oldBefore: nat, appliedBefore: nat)
    returns (ok: bool, result: seq<Line>, oldIndex: nat, applied: nat)
    requires !IsHunkHeader(line)
    ensures var next := Step(file, Cursor(before, oldBefore, appliedBefore, true), line);
      ok == next.Some? && (ok ==> next.value == Cursor(result, oldIndex, applied, true))
  {
    result, oldIndex, applied := before, oldBefore, appliedBefore;
    if line != [] {
      var marker, body := line[0], line[1..];
      if marker == ' ' {
        if oldIndex >= |file| || file[oldIndex] != body {
          return false, result, oldIndex, applied;
        }
        result := result + [file[oldIndex]];
        oldIndex := oldIndex + 1;
      } else if marker == '-' {
        if oldIndex >= |file| || file[oldIndex] != body {
          return false, result, oldIndex, applied;
        }
        oldIndex := oldIndex + 1;
        applied := applied + 1;
      } else if marker == '+' {
        result := result + [body];
        applied := applied + 1;
      }
    }
    ok := true;
  }

  /** A hunk header: the lines before the hunk are copied. */
  method ApplyHeader(file: seq<Line>, line: Line, before: seq<Line>, oldBefore: nat, applied: nat, ghost started: bool)
    returns (ok: bool, result: seq<Line>, oldIndex: nat)
    requires IsHunkHeader(line)
    ensures var next := Step(file, Cursor(before, oldBefore, applied, started), line);
      ok == next.Some? && (ok ==> next.value == Cursor(result, oldIndex, applied, true))
  {
    result, oldIndex := before, oldBefore;
    var start := OldStart(line);
    if start.None? {
      return false, result, oldIndex;
    }
    var target: nat := if start.value - 1 > 0 then start.value - 1 else 0;
    result := result + Slice(file, oldIndex, target);
    oldIndex := target;
    ok := true;
  }

  /** The program's loops: an outer one over hunk headers and an inner one over the lines of a hunk. */
  method ApplyHunks(file: seq<Line>, lines: seq<Line>) returns (r: Patched)
    ensures r == Finish(file, Steps(file, Cursor([], 0, 0, false), lines))
  {
    var result: seq<Line> := [];
    var oldIndex: nat, applied: nat, i: nat := 0, 0, 0;
    ghost var started := false;
    ghost var whole := Steps(file, Cursor([], 0, 0, false), lines);
    StepsStart(file, Cursor([], 0, 0, false), lines);
    while i < |lines|
      invariant i <= |lines|
      invariant Replays(file, Cursor(result, oldIndex, applied, started), lines[i..], whole)
      invariant started && i < |lines| ==> IsHunkHeader(lines[i])
    {
      StepsHead(file, Cursor(result, oldIndex, applied, started), lines, i, whole);
      var line := lines[i];
      i := i + 1;
      if !IsHunkHeader(line) {
        continue;
      }
      var ok;
      ok, result, oldIndex := ApplyHeader(file, line, result, oldIndex, applied, started);
      if !ok {
        return Refused;
      }
      started := true;
      while i < |lines| && !IsHunkHeader(lines[i])
        invariant i <= |lines|
        invariant Replays(file, Cursor(result, oldIndex, applied, true), lines[i..], whole)
      {
        StepsHead(file, Cursor(result, oldIndex, applied, true), lines, i, whole);
        ok, result, oldIndex, applied := ApplyHunkLine(file, lines[i], result, oldIndex, applied);
        if !ok {
          return Refused;
        }
        i := i + 1;
      }
    }
    StepsEnd(file, Cursor(result, oldIndex, applied, started), lines, whole);
    if applied == 0 {
      return Refused;
    }
    r := Patched(result + Slice(file, oldIndex, |file|), applied);
  }

  /** `apply_simple_unified_diff`. */
  method ApplySimpleUnifiedDiff(file: seq<Line>, lines: seq<Line>, matches: string -> bool) returns (r: Patched)
    ensures r == Apply(file, lines, matches)
  {
    if !ValidPath(lines, matches) {
      return Refused;
    }
    r := ApplyHunks(file, lines);
  }
}
