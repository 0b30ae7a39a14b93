/**
  The few string operations the modelled code uses: splitting at a character, stripping white space,
  searching, and decimal numbers both ways.
 */
module Text {
  import opened Wrappers

  /** The white space of `str.strip` beyond ASCII. */
  predicate IsWideSpace(c: char) {
    || c == '\U{0085}' || c == '\U{00A0}' || c == '\U{1680}'
    || '\U{2000}' <= c <= '\U{200A}'
    || c == '\U{2028}' || c == '\U{2029}' || c == '\U{202F}' || c == '\U{205F}' || c == '\U{3000}'
  }

  /** White space as `str.strip` sees it. */
  predicate IsSpace(c: char) {
    if c <= ' ' then '\U{0009}' <= c <= '\U{000D}' || '\U{001C}' <= c
    else '\U{0085}' <= c && IsWideSpace(c)
  }

  function TrimLeft(s: string): (r: string)
    ensures r == [] || !IsSpace(r[0])
    ensures s == [] || !IsSpace(s[0]) ==> r == s
  {
    if s != [] && IsSpace(s[0]) then TrimLeft(s[1..]) else s
  }

  function TrimRight(s: string): (r: string)
    ensures r == [] || !IsSpace(r[|r| - 1])
    ensures s == [] || !IsSpace(s[|s| - 1]) ==> r == s
    ensures r <= s
  {
    if s != [] && IsSpace(s[|s| - 1]) then TrimRight(s[..|s| - 1]) else s
  }

  /** `str.strip`. */
  function Trim(s: string): string {
    TrimRight(TrimLeft(s))
  }

  /** Position of the first c at or after `from`; the length when there is none. */
  function IndexOf(s: string, c: char, from: nat): (i: nat)
    requires from <= |s|
    ensures from <= i <= |s|
    ensures i < |s| ==> s[i] == c
    ensures forall k :: from <= k < i ==> s[k] != c
    decreases |s| - from
  {
    if from == |s| || s[from] == c then from else IndexOf(s, c, from + 1)
  }

  /** The text before the first c. */
  function Before(s: string, c: char): string {
    s[..IndexOf(s, c, 0)]
  }

  lemma IndexOfFirst(a: string, c: char, b: string)
    requires c !in a
    ensures IndexOf(a + [c] + b, c, 0) == |a|
    ensures Before(a + [c] + b, c) == a
  {
    var s := a + [c] + b;
    assert s[|a|] == c;
    assert forall k :: 0 <= k < |a| ==> s[k] == a[k] && a[k] != c;
  }

  lemma IndexOfNone(a: string, c: char)
    requires c !in a
    ensures Before(a, c) == a
  {
    assert forall k :: 0 <= k < |a| ==> a[k] in a;
  }

  // ---------------------------------------------------------------- reading a text file

  /** What reading a file in text mode makes of its text: every carriage return, with or without a line feed, is one. */
  function ReadBack(s: string): string {
    if s == "" then ""
    else if s[0] != '\r' then [s[0]] + ReadBack(s[1..])
    else "\n" + ReadBack(if |s| > 1 && s[1] == '\n' then s[2..] else s[1..])
  }

  /** Reading translates exactly the texts that hold a carriage return, and leaves none. */
  lemma {:induction false} ReadBackPlain(s: string)
    ensures ReadBack(s) == s <==> '\r' !in s
    ensures '\r' !in ReadBack(s)
    decreases |s|
  {
    if s != "" {
      if s[0] != '\r' {
        ReadBackPlain(s[1..]);
        assert s == [s[0]] + s[1..];
      } else {
        var rest := if |s| > 1 && s[1] == '\n' then s[2..] else s[1..];
        ReadBackPlain(rest);
        assert ReadBack(s)[0] == '\n';
      }
    }
  }

  lemma ReadPlainFirst(c: char, s: string)
    requires c != '\r'
    ensures ReadBack([c] + s) == [c] + ReadBack(s)
  {
    assert ([c] + s)[1..] == s;
  }

  lemma ReadPairFirst(s: string)
    ensures ReadBack("\r\n" + s) == "\n" + ReadBack(s)
  {
    assert ("\r\n" + s)[2..] == s;
  }

  lemma ReadReturnFirst(s: string)
    requires s == "" || s[0] != '\n'
    ensures ReadBack("\r" + s) == "\n" + ReadBack(s)
  {
    assert ("\r" + s)[1..] == s;
  }

  /** The texts join, and what is read back from them joins too. */
  ghost predicate ReadsApart(a: string, b: string) { ReadBack(a + b) == ReadBack(a) + ReadBack(b) }

  lemma JoinThree(x: string, y: string, z: string)
    ensures x + y + z == x + (y + z)
  {
  }

  lemma ApartBy(p: string, q: string, a: string, b: string)
    requires ReadsApart(a, b)
    requires ReadBack(p + a) == q + ReadBack(a) && ReadBack(p + (a + b)) == q + ReadBack(a + b)
    ensures ReadsApart(p + a, b)
  {
    JoinThree(p, a, b);
    JoinThree(q, ReadBack(a), ReadBack(b));
  }

  lemma {:induction false} ReadBackAfter(a: string, b: string)
    requires a == "" || b == "" || a[|a| - 1] != '\r' || b[0] != '\n'
    ensures ReadsApart(a, b)
    decreases |a|
  {
    if a == "" {
      assert a + b == b;
    } else if a[0] != '\r' {
      var rest := a[1..];
      ReadBackAfter(rest, b);
      ReadPlainFirst(a[0], rest);
      ReadPlainFirst(a[0], rest + b);
      ApartBy([a[0]], [a[0]], rest, b);
      assert [a[0]] + rest == a;
    } else if |a| > 1 && a[1] == '\n' {
      var rest := a[2..];
      ReadBackAfter(rest, b);
      ReadPairFirst(rest);
      ReadPairFirst(rest + b);
      ApartBy("\r\n", "\n", rest, b);
      assert "\r\n" + rest == a;
    } else {
      var rest := a[1..];
      ReadBackAfter(rest, b);
      ReadReturnFirst(rest);
      ReadReturnFirst(rest + b);
      ApartBy("\r", "\n", rest, b);
      assert "\r" + rest == a;
    }
  }

  predicate AllSpace(s: string) { forall c :: c in s ==> IsSpace(c) }

  lemma {:induction false} TrimLeftSpaces(x: string, s: string)
    requires AllSpace(x)
    ensures TrimLeft(x + s) == TrimLeft(s)
  {
    if x == "" {
      assert x + s == s;
    } else {
      TrimLeftSpaces(x[1..], s);
      assert (x + s)[0] == x[0] && (x + s)[1..] == x[1..] + s && x[0] in x;
    }
  }

  lemma {:induction false} TrimRightSpaces(s: string, y: string)
    requires AllSpace(y)
    ensures TrimRight(s + y) == TrimRight(s)
    decreases |y|
  {
    if y == "" {
      assert s + y == s;
    } else {
      var n := |y| - 1;
      TrimRightSpaces(s, y[..n]);
      assert (s + y)[..|s| + n] == s + y[..n] && (s + y)[|s| + n] == y[n] && y[n] in y;
    }
  }

  /** White space around a trimmed text is trimmed off. */
  lemma TrimAround(x: string, core: string, y: string)
    requires AllSpace(x) && AllSpace(y) && Trim(core) == core
    ensures Trim(x + core + y) == core
  {
    assert x + core + y == x + (core + y);
    TrimLeftSpaces(x, core + y);
    if core == "" {
      assert core + y == y;
      TrimLeftSpaces(y, "");
      assert y + "" == y;
    } else {
      TrimmedEnds(core);
      assert (core + y)[0] == core[0];
      TrimRightSpaces(core, y);
    }
  }

  lemma TrimmedEnds(core: string)
    requires Trim(core) == core && core != ""
    ensures !IsSpace(core[0]) && !IsSpace(core[|core| - 1])
  {
    assert TrimRight(TrimLeft(core)) <= TrimLeft(core);
    assert core[0] == TrimLeft(core)[0];
  }

  lemma {:induction false} TrimLeftCut(s: string) returns (x: string)
    ensures AllSpace(x) && x + TrimLeft(s) == s
  {
    if s != "" && IsSpace(s[0]) {
      x := TrimLeftCut(s[1..]);
      x := [s[0]] + x;
      assert s == [s[0]] + s[1..];
    } else {
      x := "";
    }
  }

  lemma {:induction false} TrimRightCut(s: string) returns (y: string)
    ensures AllSpace(y) && TrimRight(s) + y == s
  {
    if s != "" && IsSpace(s[|s| - 1]) {
      var n := |s| - 1;
      y := TrimRightCut(s[..n]);
      y := y + [s[n]];
      assert s == s[..n] + [s[n]];
    } else {
      y := "";
    }
  }

  lemma {:induction false} ReadBackSpaces(s: string)
    requires AllSpace(s)
    ensures AllSpace(ReadBack(s))
    decreases |s|
  {
    if s != "" {
      if s[0] != '\r' {
        ReadBackSpaces(s[1..]);
        assert s[0] in s;
      } else {
        ReadBackSpaces(if |s| > 1 && s[1] == '\n' then s[2..] else s[1..]);
      }
    }
  }

  lemma {:induction false} TrimLeftChars(s: string)
    ensures forall c :: c in TrimLeft(s) ==> c in s
  {
    if s != [] && IsSpace(s[0]) {
      TrimLeftChars(s[1..]);
    }
  }

  /** Trimming keeps to the characters that are there, and trims all there is to trim. */
  lemma TrimTrims(s: string)
    ensures forall c :: c in Trim(s) ==> c in s
    ensures Trim(Trim(s)) == Trim(s)
  {
    TrimLeftChars(s);
    var r := Trim(s);
    assert r <= TrimLeft(s);
    if r != [] {
      assert r[0] == TrimLeft(s)[0];
    }
  }

  /** Reading back changes the trimmed text exactly when that holds a carriage return. */
  lemma TrimReadBack(s: string)
    ensures Trim(ReadBack(s)) == Trim(s) <==> '\r' !in Trim(s)
  {
    ReadBackPlain(s);
    TrimTrims(ReadBack(s));
    if '\r' !in Trim(s) {
      var core := Trim(s);
      var x := TrimLeftCut(s);
      var y := TrimRightCut(TrimLeft(s));
      TrimTrims(s);
      ReadAround(x, core, y);
      JoinThree(x, core, y);
      if core == "" {
        AllSpaceTrims(ReadBack(s));
      } else {
        TrimAround(ReadBack(x), core, ReadBack(y));
      }
    }
  }

  lemma AllSpaceTrims(s: string)
    requires AllSpace(s)
    ensures Trim(s) == ""
  {
    TrimLeftSpaces(s, "");
    assert s + "" == s;
  }

  lemma ReadAround(x: string, core: string, y: string)
    requires AllSpace(x) && AllSpace(y) && Trim(core) == core && '\r' !in core
    ensures AllSpace(ReadBack(x)) && AllSpace(ReadBack(y))
    ensures core != "" ==> ReadBack(x + core + y) == ReadBack(x) + core + ReadBack(y)
    ensures core == "" ==> AllSpace(ReadBack(x + core + y))
  {
    ReadBackSpaces(x);
    ReadBackSpaces(y);
    if core == "" {
      ReadBackSpaces(x + core + y);
    } else {
      TrimmedEnds(core);
      ReadBackPlain(core);
      ReadBackAfter(x, core);
      ReadBackAfter(x + core, y);
    }
  }

  // ---------------------------------------------------------------- decimal numbers

  function Digit(d: nat): char
    requires d < 10
  {
    '0' + d as char
  }

  predicate IsDigit(c: char) { '0' <= c <= '9' }

  function DigitValue(c: char): nat
    requires IsDigit(c)
  {
    (c - '0') as nat
  }

  /** Decimal digits, without leading zeros. */
  function Decimal(n: nat): (s: string)
    ensures s != []
    ensures forall c :: c in s ==> IsDigit(c)
  {
    if n < 10 then [Digit(n)] else Decimal(n / 10) + [Digit(n % 10)]
  }

  /** Digits with single underscores between them, as `int` reads them. */
  function ParseDigits(s: string): Option<nat> {
    if s == [] || !IsDigit(s[|s| - 1]) then None
    else if |s| == 1 then Some(DigitValue(s[0]))
    else
      var n := |s| - 1;
      match ParseDigits(if n >= 1 && s[n - 1] == '_' then s[..n - 1] else s[..n])
      case None => None
      case Some(v) => Some(10 * v + DigitValue(s[n]))
  }

  /** `int` on ASCII text; None is the `ValueError`. */
  function ParseInt(text: string): Option<int> {
    var s := Trim(text);
    if s == [] then None
    else if s[0] == '-' then Signed(ParseDigits(s[1..]), -1)
    else Signed(ParseDigits(if s[0] == '+' then s[1..] else s), 1)
  }

  function Signed(magnitude: Option<nat>, sign: int): Option<int> {
    match magnitude
    case None => None
    case Some(v) => Some(sign * v)
  }

  lemma {:induction false} ParseDecimalDigits(n: nat)
    ensures ParseDigits(Decimal(n)) == Some(n)
  {
    if n >= 10 {
      ParseDecimalDigits(n / 10);
      var s := Decimal(n);
      assert s[..|s| - 1] == Decimal(n / 10);
      assert s[|s| - 2] in Decimal(n / 10);
    }
  }

  /** Reading back a printed number. */
  lemma ParseDecimal(n: nat)
    ensures ParseInt(Decimal(n)) == Some(n)
  {
    var s := Decimal(n);
    assert IsDigit(s[0]) by { assert s[0] in s; }
    assert IsDigit(s[|s| - 1]) by { assert s[|s| - 1] in s; }
    assert TrimLeft(s) == s && TrimRight(s) == s;
    ParseDecimalDigits(n);
  }

  /** Printing is injective, because it can be read back. */
  lemma DecimalInjective(m: nat, n: nat)
    requires Decimal(m) == Decimal(n)
    ensures m == n
  {
    ParseDecimalDigits(m);
    ParseDecimalDigits(n);
  }
}
