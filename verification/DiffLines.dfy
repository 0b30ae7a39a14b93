/**
  What the applier makes of the lines of any diff, printed by whatever program: which lines say nothing, which make it
  refuse, and what the file headers must name.
 */
module DiffLines {
  import opened Wrappers
  import opened Text
  import opened UnifiedDiff

  // ---------------------------------------------------------------- lines that say nothing

  /** Not a hunk header, and without the marker of a context line, a removal or an insertion. */
  predicate Silent(line: Line) {
    !("@@" <= line) && (line == "" || (line[0] != ' ' && line[0] != '-' && line[0] != '+'))
  }

  lemma {:induction false} StepsAppend(file: seq<Line>, c: Cursor, a: seq<Line>, b: seq<Line>)
    ensures Steps(file, c, a + b)
      == match Steps(file, c, a) case None => None case Some(mid) => Steps(file, mid, b)
    decreases |a|
  {
    if a == [] {
      assert a + b == b;
    } else {
      assert (a + b)[0] == a[0] && (a + b)[1..] == a[1..] + b;
      if Step(file, c, a[0]).Some? {
        StepsAppend(file, Step(file, c, a[0]).value, a[1..], b);
      }
    }
  }

  lemma SilentStep(file: seq<Line>, c: Cursor, line: Line, rest: seq<Line>)
    requires Silent(line)
    ensures Steps(file, c, [line] + rest) == Steps(file, c, rest)
  {
    assert ([line] + rest)[1..] == rest;
  }

  /** A silent line makes no difference, wherever it stands. */
  lemma SilentAnywhere(file: seq<Line>, c: Cursor, a: seq<Line>, line: Line, b: seq<Line>)
    requires Silent(line)
    ensures Steps(file, c, a + ([line] + b)) == Steps(file, c, a + b)
  {
    StepsAppend(file, c, a, [line] + b);
    StepsAppend(file, c, a, b);
    if Steps(file, c, a).Some? {
      SilentStep(file, Steps(file, c, a).value, line, b);
    }
  }

  /** Whatever comes before the first hunk header makes no difference. */
  lemma {:induction false} PrefaceSkipped(file: seq<Line>, c: Cursor, preface: seq<Line>, body: seq<Line>)
    requires !c.inHunk && forall i :: 0 <= i < |preface| ==> !("@@" <= preface[i])
    ensures Steps(file, c, preface + body) == Steps(file, c, body)
    decreases |preface|
  {
    if preface == [] {
      assert preface + body == body;
    } else {
      assert (preface + body)[0] == preface[0] && (preface + body)[1..] == preface[1..] + body;
      PrefaceSkipped(file, c, preface[1..], body);
    }
  }

  /** A hunk header whose start line cannot be read makes the diff unusable, wherever it stands. */
  lemma {:induction false} UnreadableHeader(file: seq<Line>, c: Cursor, lines: seq<Line>, i: nat)
    requires i < |lines| && "@@" <= lines[i] && OldStart(lines[i]).None?
    ensures Steps(file, c, lines).None?
    decreases |lines|
  {
    if i > 0 && Step(file, c, lines[0]).Some? {
      UnreadableHeader(file, Step(file, c, lines[0]).value, lines[1..], i - 1);
    }
  }

  // ---------------------------------------------------------------- file headers

  /** At most one line starts like this. */
  predicate AtMostOnce(lines: seq<Line>, prefix: string) {
    forall i, j :: 0 <= i < j < |lines| ==> !(prefix <= lines[i] && prefix <= lines[j])
  }

  predicate Somewhere(lines: seq<Line>, prefix: string) { exists i :: 0 <= i < |lines| && prefix <= lines[i] }

  lemma {:induction false} StartingIs(lines: seq<Line>, prefix: string)
    ensures |Starting(lines, prefix)| > 0 <==> Somewhere(lines, prefix)
    ensures |Starting(lines, prefix)| <= 1 <==> AtMostOnce(lines, prefix)
    ensures forall h :: h in Starting(lines, prefix) <==> h in lines && prefix <= h
    decreases |lines|
  {
    if lines != [] {
      var rest := lines[1..];
      StartingIs(rest, prefix);
      assert lines == [lines[0]] + rest;
      assert forall i :: 0 <= i < |rest| ==> rest[i] == lines[i + 1];
      SomewhereFirst(lines, prefix);
      OnceFirst(lines, prefix);
    }
  }

  lemma SomewhereFirst(lines: seq<Line>, prefix: string)
    requires lines != []
    ensures Somewhere(lines, prefix) <==> prefix <= lines[0] || Somewhere(lines[1..], prefix)
  {
    var rest := lines[1..];
    if i :| 0 <= i < |lines| && prefix <= lines[i] {
      assert i > 0 ==> rest[i - 1] == lines[i];
    }
    if i :| 0 <= i < |rest| && prefix <= rest[i] {
      assert lines[i + 1] == rest[i];
    }
  }

  lemma OnceFirst(lines: seq<Line>, prefix: string)
    requires lines != []
    ensures AtMostOnce(lines, prefix) <==>
      AtMostOnce(lines[1..], prefix) && !(prefix <= lines[0] && Somewhere(lines[1..], prefix))
  {
    var rest := lines[1..];
    assert forall i :: 0 <= i < |rest| ==> rest[i] == lines[i + 1];
    if AtMostOnce(lines, prefix) {
      forall i, j | 0 <= i < j < |rest|
        ensures !(prefix <= rest[i] && prefix <= rest[j])
      {
        assert !(prefix <= lines[i + 1] && prefix <= lines[j + 1]);
      }
      forall i | 0 <= i < |rest|
        ensures !(prefix <= lines[0] && prefix <= rest[i])
      {
        assert !(prefix <= lines[0] && prefix <= lines[i + 1]);
      }
    }
    if AtMostOnce(rest, prefix) && !(prefix <= lines[0] && Somewhere(rest, prefix)) {
      forall i, j | 0 <= i < j < |lines|
        ensures !(prefix <= lines[i] && prefix <= lines[j])
      {
        assert rest[j - 1] == lines[j] && (i > 0 ==> rest[i - 1] == lines[i]);
      }
    }
  }

  /** The header names the file to patch. */
  predicate NamesTarget(header: Line, matches: string -> bool) {
    HeaderPath(header) != "/dev/null" && matches(HeaderPath(header))
  }

  predicate Announces(line: Line) {
    || "rename from " <= line || "rename to " <= line || "deleted file mode " <= line || "new file mode " <= line
    || "Binary files " <= line
  }

  lemma RefusedIff(line: Line)
    ensures RefusedLine(line) <==> Announces(line)
  {
    assert REFUSED_HEADERS[0] in REFUSED_HEADERS && REFUSED_HEADERS[1] in REFUSED_HEADERS
      && REFUSED_HEADERS[2] in REFUSED_HEADERS && REFUSED_HEADERS[3] in REFUSED_HEADERS
      && REFUSED_HEADERS[4] in REFUSED_HEADERS;
  }

  /**
    `validate_single_file_diff_path`.  A diff passes exactly when no line announces a rename, a creation, a deletion or
    a binary patch, there is at most one file header of each kind and one of each or none, and all of them name the
    target.
   */
  lemma ValidPathIff(lines: seq<Line>, matches: string -> bool)
    ensures ValidPath(lines, matches) <==>
      && (forall line :: line in lines ==> !Announces(line))
      && AtMostOnce(lines, "--- ") && AtMostOnce(lines, "+++ ")
      && (Somewhere(lines, "--- ") <==> Somewhere(lines, "+++ "))
      && (forall line :: line in lines && ("--- " <= line || "+++ " <= line) ==> NamesTarget(line, matches))
  {
    forall line
      ensures RefusedLine(line) <==> Announces(line)
    {
      RefusedIff(line);
    }
    StartingIs(lines, "--- ");
    StartingIs(lines, "+++ ");
    HeadersIff(lines, Starting(lines, "--- "), Starting(lines, "+++ "), matches);
  }

  lemma HeadersIff(lines: seq<Line>, olds: seq<Line>, news: seq<Line>, matches: string -> bool)
    requires forall h :: h in olds <==> h in lines && "--- " <= h
    requires forall h :: h in news <==> h in lines && "+++ " <= h
    ensures HeadersNameTarget(olds, news, matches) <==>
      && |olds| <= 1 && |news| <= 1 && (|olds| > 0 <==> |news| > 0)
      && (forall line :: line in lines && ("--- " <= line || "+++ " <= line) ==> NamesTarget(line, matches))
  {
    if |olds| == 1 && |news| == 1 {
      assert olds[0] in olds && news[0] in news;
      assert forall h :: h in olds ==> h == olds[0];
      assert forall h :: h in news ==> h == news[0];
    }
  }

  lemma {:induction false} TrimKeeps(core: string, tail: string)
    requires core != "" && !IsSpace(core[|core| - 1])
    ensures core <= TrimRight(core + tail)
    decreases |tail|
  {
    var s := core + tail;
    if tail == "" {
      assert s == core;
    } else {
      assert s[..|s| - 1] == core + tail[..|tail| - 1];
      TrimKeeps(core, tail[..|tail| - 1]);
    }
  }

  /** Cutting at a character that comes right behind the core, or later, keeps the core. */
  lemma BeforeKeeps(core: string, s: string, c: char)
    requires core <= s && c !in core
    ensures core <= Before(s, c) <= s
    ensures |s| == |core| || s[|core|] == c ==> Before(s, c) == core
  {
    assert forall i :: 0 <= i < |core| ==> s[i] == core[i] && core[i] in core;
  }

  /**
    `diff_header_path`.  The path is what follows the mark, up to the first blank or tab behind it, without the side
    letter, whatever the program that made the diff appends.
   */
  lemma HeaderPathExact(mark: string, core: string, tail: string)
    requires |mark| == 4 && core != "" && forall c :: c in core ==> !IsSpace(c)
    requires tail == "" || tail[0] == '\t' || tail[0] == ' '
    ensures HeaderPath(mark + (core + tail)) == if "a/" <= core || "b/" <= core then core[2..] else core
  {
    var s := core + tail;
    assert (mark + s)[4..] == s;
    assert core[0] in core && core[|core| - 1] in core;
    assert s[0] == core[0];
    TrimKeeps(core, tail);
    var v := Trim(s);
    assert v == TrimRight(s);
    assert |v| > |core| ==> v[|core|] == tail[0];
    BeforeKeeps(core, v, '\t');
    BeforeKeeps(core, Before(v, '\t'), ' ');
  }

  // ---------------------------------------------------------------- what a patched file stands for

  /** A patched file: the path check has passed, every hunk header could be read, and something was changed. */
  lemma PatchedMeans(file: seq<Line>, lines: seq<Line>, matches: string -> bool)
    requires Apply(file, lines, matches).Patched?
    ensures ValidPath(lines, matches) && Apply(file, lines, matches).applied > 0
    ensures forall line :: line in lines && "@@" <= line ==> OldStart(line).Some?
  {
    forall line | line in lines && "@@" <= line
      ensures OldStart(line).Some?
    {
      var i :| 0 <= i < |lines| && lines[i] == line;
      if OldStart(line).None? {
        UnreadableHeader(file, Cursor([], 0, 0, false), lines, i);
      }
    }
  }
}
