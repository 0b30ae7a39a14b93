/**
  Edit scripts over lines of any kind: what a script means, what the diff applier makes of it, and its inverse.
 */
module EditScripts {
  /** A Python slice: bounds past the end are clipped and an inverted range is empty. */
  function Slice<T>(s: seq<T>, lo: nat, hi: nat): seq<T> {
    var h := if hi <= |s| then hi else |s|;
    if lo <= h then s[lo..h] else []
  }

  // ---------------------------------------------------------------- edit scripts

  datatype Edit<T> = Keep(line: T) | Remove(line: T) | Insert(line: T)

  /** A hunk: how many original lines precede it, and its edits. */
  datatype Hunk<T> = Hunk(at: nat, edits: seq<Edit<T>>)

  datatype Script<T> = Done | Then(hunk: Hunk<T>, later: Script<T>)

  function Olds<T>(e: Edit<T>): seq<T> { if e.Insert? then [] else [e.line] }

  function News<T>(e: Edit<T>): seq<T> { if e.Remove? then [] else [e.line] }

  function Weight<T>(e: Edit<T>): nat { if e.Keep? then 0 else 1 }

  /** The lines the edits expect, and the lines they leave. */
  function OldOf<T>(edits: seq<Edit<T>>): seq<T> {
    if edits == [] then [] else Olds(edits[0]) + OldOf(edits[1..])
  }

  function NewOf<T>(edits: seq<Edit<T>>): seq<T> {
    if edits == [] then [] else News(edits[0]) + NewOf(edits[1..])
  }

  function Changes<T>(edits: seq<Edit<T>>): nat {
    if edits == [] then 0 else Weight(edits[0]) + Changes(edits[1..])
  }

  function AllChanges<T>(script: Script<T>): nat {
    if script.Done? then 0 else Changes(script.hunk.edits) + AllChanges(script.later)
  }

  // ---------------------------------------------------------------- replaced spans

  /** A script as far as it matters to whole files: the lines each hunk replaces at `at`, and those it leaves. */
  datatype Spans<T> = NoSpans | Span(at: nat, olds: seq<T>, news: seq<T>, later: Spans<T>)

  function SpansOf<T>(script: Script<T>): Spans<T> {
    if script.Done? then NoSpans
    else Span(script.hunk.at, OldOf(script.hunk.edits), NewOf(script.hunk.edits), SpansOf(script.later))
  }

  /** The lines are found at position k. */
  predicate At<T(==)>(file: seq<T>, k: nat, lines: seq<T>) {
    k + |lines| <= |file| && file[k..k + |lines|] == lines
  }

  /** The spans come in order, do not overlap and match the file, from line `from` on. */
  predicate Fit<T(==)>(file: seq<T>, c: Spans<T>, from: nat) {
    from <= |file| &&
    (c.NoSpans? || (from <= c.at && At(file, c.at, c.olds) && Fit(file, c.later, c.at + |c.olds|)))
  }

  /** The file they describe, from line `from` on. */
  function Replaced<T>(file: seq<T>, c: Spans<T>, from: nat): seq<T> {
    if c.NoSpans? then Slice(file, from, |file|)
    else Slice(file, from, c.at) + c.news + Replaced(file, c.later, c.at + |c.olds|)
  }

  /** Where a printed hunk header makes the applier continue: one line early if the hunk replaces nothing. */
  function ReadPoint<T(==)>(at: nat, olds: seq<T>): nat {
    if olds == [] && at > 0 then at - 1 else at
  }

  /** What the applier makes of them from line `from` on. */
  function Landed<T(==)>(file: seq<T>, c: Spans<T>, from: nat): seq<T> {
    if c.NoSpans? then Slice(file, from, |file|)
    else
      var read := ReadPoint(c.at, c.olds);
      Slice(file, from, read) + c.news + Landed(file, c.later, read + |c.olds|)
  }

  /**
    The spans that land where they should, given the applier's cursor: reading one line early is harmless only if the
    applier may step back a line and all that is inserted are copies of that line.
   */
  predicate InPlace<T(==)>(file: seq<T>, c: Spans<T>, cursor: nat) {
    c.NoSpans? ||
    (var read := ReadPoint(c.at, c.olds);
     && (read != c.at ==> cursor < c.at <= |file| && AllAre(c.news, file[c.at - 1]))
     && InPlace(file, c.later, read + |c.olds|))
  }

  predicate AllAre<T(==)>(x: seq<T>, f: T) {
    forall i :: 0 <= i < |x| ==> x[i] == f
  }

  /** The script matches the file from line `from` on. */
  predicate Matches<T(==)>(file: seq<T>, script: Script<T>, from: nat) { Fit(file, SpansOf(script), from) }

  /** The file the script describes, from line `from` on. */
  function Target<T>(file: seq<T>, script: Script<T>, from: nat): seq<T> { Replaced(file, SpansOf(script), from) }

  /** What the applier makes of the printed script from line `from` on. */
  function Landing<T(==)>(file: seq<T>, script: Script<T>, from: nat): seq<T> { Landed(file, SpansOf(script), from) }

  /** The script lands where it should. */
  predicate Settled<T(==)>(file: seq<T>, script: Script<T>, cursor: nat) { InPlace(file, SpansOf(script), cursor) }

  function ReadAt<T(==)>(h: Hunk<T>): nat { ReadPoint(h.at, OldOf(h.edits)) }

  /** Position in the new file of what is at `at` in the old one, after hunks that moved it by `shift`. */
  function NewAt(at: nat, shift: int): nat {
    if at + shift >= 0 then at + shift else 0
  }

  function Shift<T>(h: Hunk<T>): int { |NewOf(h.edits)| - |OldOf(h.edits)| }

  lemma LandingFirst<T>(file: seq<T>, script: Script<T>, cursor: nat, next: nat, l: seq<T>)
    requires script.Then? && next == ReadAt(script.hunk) + |OldOf(script.hunk.edits)|
    requires l == Landing(file, script.later, next)
    ensures Landing(file, script, cursor) == Slice(file, cursor, ReadAt(script.hunk)) + NewOf(script.hunk.edits) + l
  {
  }

  // ---------------------------------------------------------------- landing on the target

  lemma LandedFirst<T>(file: seq<T>, c: Spans<T>, cursor: nat, read: nat, l: seq<T>)
    requires c.Span? && read == ReadPoint(c.at, c.olds) && l == Landed(file, c.later, read + |c.olds|)
    ensures Landed(file, c, cursor) == Slice(file, cursor, read) + c.news + l
  {
  }

  lemma ReplacedFirst<T>(file: seq<T>, c: Spans<T>, from: nat, t: seq<T>)
    requires c.Span? && t == Replaced(file, c.later, c.at + |c.olds|)
    ensures Replaced(file, c, from) == Slice(file, from, c.at) + c.news + t
  {
  }

  /** The target behind the line, if there is one, between the applier's cursor and the target's. */
  ghost function Expected<T>(file: seq<T>, cursor: nat, from: nat, target: seq<T>): seq<T>
    requires cursor <= from <= cursor + 1 && from <= |file|
  {
    if cursor == from then target else [file[cursor]] + target
  }

  ghost predicate OnTarget<T>(file: seq<T>, cursor: nat, from: nat, landing: seq<T>, target: seq<T>)
    requires cursor <= from <= cursor + 1 && from <= |file|
  {
    landing == Expected(file, cursor, from, target)
  }

  /** The landing is at least as long as that. */
  ghost predicate Covers<T>(cursor: nat, from: nat, landing: seq<T>, target: seq<T>) {
    |landing| >= from - cursor + |target|
  }

  lemma ConsEqual<T>(a: T, s: seq<T>, b: T, t: seq<T>)
    ensures [a] + s == [b] + t <==> a == b && s == t
  {
    assert ([a] + s)[1..] == s && ([b] + t)[1..] == t;
    assert ([a] + s)[0] == a && ([b] + t)[0] == b;
  }

  lemma AllAreCons<T>(y: T, ys: seq<T>, f: T)
    ensures AllAre([y] + ys, f) <==> y == f && AllAre(ys, f)
  {
    var x := [y] + ys;
    assert x[0] == y && forall i :: 0 <= i < |ys| ==> x[i + 1] == ys[i];
    if AllAre(x, f) {
      forall i | 0 <= i < |ys|
        ensures ys[i] == f
      {
        assert x[i + 1] == f;
      }
    }
  }

  /** Lines that can be moved past one line are copies of it. */
  lemma {:induction false} Rotates<T>(x: seq<T>, f: T, later: seq<T>, target: seq<T>)
    ensures x + later == [f] + (x + target) <==> later == [f] + target && AllAre(x, f)
    decreases |x|
  {
    if x == [] {
      assert x + later == later && x + target == target;
    } else {
      var y, ys := x[0], x[1..];
      Rotates(ys, y, later, target);
      assert x == [y] + ys;
      AllAreCons(y, ys, f);
      assert x + later == [y] + (ys + later) && x + target == [y] + (ys + target);
      ConsEqual(y, ys + later, f, [y] + (ys + target));
    }
  }

  lemma Associates<T>(a: seq<T>, b: seq<T>, c: seq<T>)
    ensures (a + b) + c == a + (b + c)
  {
  }

  lemma SameHead<T>(head: seq<T>, l: seq<T>, t: seq<T>)
    ensures head + l == head + t <==> l == t
  {
    assert (head + l)[|head|..] == l && (head + t)[|head|..] == t;
  }

  lemma Tail<T>(file: seq<T>, from: nat, cursor: nat)
    requires cursor <= from <= cursor + 1 && from <= |file|
    ensures OnTarget(file, cursor, from, Slice(file, cursor, |file|), Slice(file, from, |file|))
    ensures Covers(cursor, from, Slice(file, cursor, |file|), Slice(file, from, |file|))
  {
  }

  /** What is expected of a file that goes on with the lines up to `at`. */
  lemma ExpectedThrough<T>(file: seq<T>, cursor: nat, from: nat, at: nat, rest: seq<T>)
    requires cursor <= from <= cursor + 1 && from <= at <= |file|
    ensures Expected(file, cursor, from, file[from..at] + rest) == file[cursor..at] + rest
  {
    if cursor < from {
      assert [file[cursor]] + file[from..at] == file[cursor..at];
      Associates([file[cursor]], file[from..at], rest);
    }
  }

  /** A span with old lines is on target exactly when what follows is. */
  lemma AnchoredSpan<T>(file: seq<T>, cursor: nat, from: nat, at: nat, end: nat, x: seq<T>, l: seq<T>, t: seq<T>,
                        landing: seq<T>, target: seq<T>)
    requires cursor <= from <= cursor + 1 && from <= at <= end <= |file|
    requires landing == Slice(file, cursor, at) + x + l && target == Slice(file, from, at) + x + t
    requires Covers(end, end, l, t)
    ensures Covers(cursor, from, landing, target)
    ensures OnTarget(file, cursor, from, landing, target) <==> OnTarget(file, end, end, l, t)
  {
    Associates(file[from..at], x, t);
    Associates(file[cursor..at], x, t);
    ExpectedThrough(file, cursor, from, at, x + t);
    SameHead(file[cursor..at] + x, l, t);
  }

  /** One without is on target exactly when its lines are copies of the line it jumps over and what follows is. */
  lemma EarlySpan<T>(file: seq<T>, cursor: nat, from: nat, at: nat, x: seq<T>, l: seq<T>, t: seq<T>,
                     landing: seq<T>, target: seq<T>)
    requires cursor <= from <= cursor + 1 && from <= at <= |file| && at > 0
    requires landing == Slice(file, cursor, at - 1) + x + l && target == Slice(file, from, at) + x + t
    requires Covers(at - 1, at, l, t)
    ensures Covers(cursor, from, landing, target)
    ensures OnTarget(file, cursor, from, landing, target)
       <==> cursor < at && AllAre(x, file[at - 1]) && OnTarget(file, at - 1, at, l, t)
  {
    if cursor < at {
      var head, f := file[cursor..at - 1], file[at - 1];
      assert file[cursor..at] == head + [f];
      Associates(file[from..at], x, t);
      ExpectedThrough(file, cursor, from, at, x + t);
      Associates(head, [f], x + t);
      Associates(head, x, l);
      SameHead(head, x + l, [f] + (x + t));
      Rotates(x, f, l, t);
    }
  }

  lemma {:induction false} OnTargetIff<T>(file: seq<T>, c: Spans<T>, from: nat, cursor: nat)
    requires Fit(file, c, from) && cursor <= from <= cursor + 1
    ensures Covers(cursor, from, Landed(file, c, cursor), Replaced(file, c, from))
    ensures OnTarget(file, cursor, from, Landed(file, c, cursor), Replaced(file, c, from)) <==> InPlace(file, c, cursor)
    decreases c
  {
    if c.NoSpans? {
      Tail(file, from, cursor);
    } else if ReadPoint(c.at, c.olds) == c.at {
      var end := c.at + |c.olds|;
      OnTargetIff(file, c.later, end, end);
      AnchoredFirst(file, c, from, cursor, end, Landed(file, c.later, end), Replaced(file, c.later, end));
    } else {
      OnTargetIff(file, c.later, c.at, c.at - 1);
      EarlyFirst(file, c, from, cursor, Landed(file, c.later, c.at - 1), Replaced(file, c.later, c.at));
    }
  }

  lemma AnchoredFirst<T>(file: seq<T>, c: Spans<T>, from: nat, cursor: nat, end: nat, l: seq<T>, t: seq<T>)
    requires c.Span? && ReadPoint(c.at, c.olds) == c.at && end == c.at + |c.olds|
    requires cursor <= from <= cursor + 1 && from <= c.at && end <= |file|
    requires l == Landed(file, c.later, end) && t == Replaced(file, c.later, end)
    requires Covers(end, end, l, t)
    ensures Covers(cursor, from, Landed(file, c, cursor), Replaced(file, c, from))
    ensures OnTarget(file, cursor, from, Landed(file, c, cursor), Replaced(file, c, from))
      <==> OnTarget(file, end, end, l, t)
  {
    LandedFirst(file, c, cursor, c.at, l);
    ReplacedFirst(file, c, from, t);
    AnchoredSpan(file, cursor, from, c.at, end, c.news, l, t, Landed(file, c, cursor), Replaced(file, c, from));
  }

  lemma EarlyFirst<T>(file: seq<T>, c: Spans<T>, from: nat, cursor: nat, l: seq<T>, t: seq<T>)
    requires c.Span? && ReadPoint(c.at, c.olds) != c.at
    requires cursor <= from <= cursor + 1 && from <= c.at <= |file|
    requires l == Landed(file, c.later, c.at - 1) && t == Replaced(file, c.later, c.at)
    requires Covers(c.at - 1, c.at, l, t)
    ensures Covers(cursor, from, Landed(file, c, cursor), Replaced(file, c, from))
    ensures OnTarget(file, cursor, from, Landed(file, c, cursor), Replaced(file, c, from))
       <==> cursor < c.at && AllAre(c.news, file[c.at - 1]) && OnTarget(file, c.at - 1, c.at, l, t)
  {
    LandedFirst(file, c, cursor, c.at - 1, l);
    ReplacedFirst(file, c, from, t);
    EarlySpan(file, cursor, from, c.at, c.news, l, t, Landed(file, c, cursor), Replaced(file, c, from));
  }

  /** A printed script lands on its target exactly when it is settled. */
  lemma LandsOnTargetIff<T>(file: seq<T>, script: Script<T>)
    requires Matches(file, script, 0)
    ensures Landing(file, script, 0) == Target(file, script, 0) <==> Settled(file, script, 0)
  {
    OnTargetIff(file, SpansOf(script), 0, 0);
  }

  predicate EveryHunkHasOldLines<T>(script: Script<T>) {
    script.Done? || (OldOf(script.hunk.edits) != [] && EveryHunkHasOldLines(script.later))
  }

  /** Scripts whose hunks all have an old line are settled. */
  lemma {:induction false} OldLinesSettle<T>(file: seq<T>, script: Script<T>, cursor: nat)
    requires EveryHunkHasOldLines(script)
    ensures Settled(file, script, cursor)
    decreases script
  {
    if script.Then? {
      assert ReadAt(script.hunk) == script.hunk.at;
      OldLinesSettle(file, script.later, script.hunk.at + |OldOf(script.hunk.edits)|);
    }
  }

  // ---------------------------------------------------------------- undoing

  function Flip<T>(e: Edit<T>): Edit<T> {
    match e
    case Keep(line) => Keep(line)
    case Remove(line) => Insert(line)
    case Insert(line) => Remove(line)
  }

  function FlipAll<T>(edits: seq<Edit<T>>): seq<Edit<T>> {
    if edits == [] then [] else [Flip(edits[0])] + FlipAll(edits[1..])
  }

  /** The script that takes the target back. */
  function Inverse<T>(script: Script<T>, shift: int): Script<T> {
    if script.Done? then Done
    else
      Then(Hunk(NewAt(script.hunk.at, shift), FlipAll(script.hunk.edits)),
           Inverse(script.later, shift + Shift(script.hunk)))
  }

  function Back<T>(c: Spans<T>, shift: int): Spans<T> {
    if c.NoSpans? then NoSpans else Span(NewAt(c.at, shift), c.news, c.olds, Back(c.later, shift + |c.news| - |c.olds|))
  }

  lemma {:induction false} FlipSwaps<T>(edits: seq<Edit<T>>)
    ensures OldOf(FlipAll(edits)) == NewOf(edits) && NewOf(FlipAll(edits)) == OldOf(edits)
    ensures Changes(FlipAll(edits)) == Changes(edits)
  {
    if edits != [] {
      FlipSwaps(edits[1..]);
      assert FlipAll(edits)[1..] == FlipAll(edits[1..]);
    }
  }

  /** The inverse makes as many changes, and replaces the new lines by the old ones. */
  lemma {:induction false} InverseChanges<T>(script: Script<T>, shift: int)
    ensures AllChanges(Inverse(script, shift)) == AllChanges(script)
    ensures SpansOf(Inverse(script, shift)) == Back(SpansOf(script), shift)
    decreases script
  {
    if script.Then? {
      FlipSwaps(script.hunk.edits);
      InverseChanges(script.later, shift + Shift(script.hunk));
    }
  }

  /** From its line k on, t is the given rest. */
  ghost predicate EndsWith<T>(t: seq<T>, k: nat, rest: seq<T>) {
    k <= |t| && t[k..] == rest
  }

  /** From line `at` on, the spans match t and lead to `target`. */
  ghost predicate LeadsTo<T>(t: seq<T>, c: Spans<T>, at: nat, target: seq<T>) {
    Fit(t, c, at) && Replaced(t, c, at) == target
  }

  /** Reading on from line k of the target, going back leads to the original. */
  lemma {:induction false} BackRestores<T>(file: seq<T>, c: Spans<T>, from: nat, t: seq<T>, k: nat)
    requires Fit(file, c, from) && EndsWith(t, k, Replaced(file, c, from))
    ensures LeadsTo(t, Back(c, k - from), k, file[from..])
    decreases c
  {
    if c.NoSpans? {
      Rest(file, from, t, k);
    } else {
      var at, end := c.at + k - from, c.at + |c.olds|;
      PassSpan(file, c, from, t, k, at);
      BackRestores(file, c.later, end, t, at + |c.news|);
      BackFirst(file, c, from, t, k, at);
    }
  }

  lemma Rest<T>(file: seq<T>, from: nat, t: seq<T>, k: nat)
    requires from <= |file| && EndsWith(t, k, Slice(file, from, |file|))
    ensures LeadsTo(t, NoSpans, k, file[from..])
  {
  }

  lemma BackSpan<T>(c: Spans<T>, shift: int, at: nat, next: int)
    requires c.Span? && at == c.at + shift && next == shift + |c.news| - |c.olds|
    ensures Back(c, shift) == Span(at, c.news, c.olds, Back(c.later, next))
  {
  }

  lemma BackFirst<T>(file: seq<T>, c: Spans<T>, from: nat, t: seq<T>, k: nat, at: nat)
    requires c.Span? && from <= c.at && At(file, c.at, c.olds) && at == c.at + k - from
    requires Slice(t, k, at) == Slice(file, from, c.at) && At(t, at, c.news)
    requires LeadsTo(t, Back(c.later, at + |c.news| - (c.at + |c.olds|)), at + |c.news|, file[c.at + |c.olds|..])
    ensures LeadsTo(t, Back(c, k - from), k, file[from..])
  {
    Reassembled(file, from, c.at, c.olds);
    BackSpan(c, k - from, at, at + |c.news| - (c.at + |c.olds|));
    OneSpanMore(t, Back(c, k - from), k, Slice(file, from, c.at), file[c.at + |c.olds|..]);
  }

  /** The target up to the end of its first span. */
  lemma PassSpan<T>(file: seq<T>, c: Spans<T>, from: nat, t: seq<T>, k: nat, at: nat)
    requires c.Span? && from <= c.at <= |file| && EndsWith(t, k, Replaced(file, c, from)) && at == c.at + k - from
    ensures Slice(t, k, at) == Slice(file, from, c.at) && At(t, at, c.news)
    ensures EndsWith(t, at + |c.news|, Replaced(file, c.later, c.at + |c.olds|))
  {
    ReplacedFirst(file, c, from, Replaced(file, c.later, c.at + |c.olds|));
    Sections(t, k, Slice(file, from, c.at), c.news, Replaced(file, c.later, c.at + |c.olds|));
  }

  lemma Sections<T>(t: seq<T>, k: nat, a: seq<T>, b: seq<T>, rest: seq<T>)
    requires EndsWith(t, k, a + b + rest)
    ensures Slice(t, k, k + |a|) == a && At(t, k + |a|, b) && EndsWith(t, k + |a| + |b|, rest)
  {
    var s := a + b + rest;
    assert s[..|a|] == a && s[|a|..|a| + |b|] == b && s[|a| + |b|..] == rest;
    assert t[k..k + |a|] == s[..|a|] && t[k + |a|..k + |a| + |b|] == s[|a|..|a| + |b|];
    assert t[k + |a| + |b|..] == s[|a| + |b|..];
  }

  /** One span more at the front. */
  lemma OneSpanMore<T>(t: seq<T>, c: Spans<T>, head: nat, keep: seq<T>, rest: seq<T>)
    requires c.Span? && head <= c.at && Slice(t, head, c.at) == keep && At(t, c.at, c.olds)
    requires LeadsTo(t, c.later, c.at + |c.olds|, rest)
    ensures LeadsTo(t, c, head, keep + c.news + rest)
  {
    ReplacedFirst(t, c, head, rest);
  }

  lemma Reassembled<T>(file: seq<T>, from: nat, at: nat, olds: seq<T>)
    requires from <= at && At(file, at, olds)
    ensures file[from..] == Slice(file, from, at) + olds + file[at + |olds|..]
  {
  }

  /** The inverse script matches the target, and its own target is the original. */
  lemma InverseMatches<T>(file: seq<T>, script: Script<T>)
    requires Matches(file, script, 0)
    ensures Matches(Target(file, script, 0), Inverse(script, 0), 0)
    ensures Target(Target(file, script, 0), Inverse(script, 0), 0) == file
  {
    InverseChanges(script, 0);
    BackRestores(file, SpansOf(script), 0, Target(file, script, 0), 0);
  }
}
