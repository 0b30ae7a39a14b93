/**
  Tool names as providers see them: dots become double underscores on the way out, and back on the way in.
 */
module ToolNames {

  /** `to_provider_tool_name`: `replace(".", "__")`. */
  function ProviderName(name: string): string {
    if name == "" then ""
    else (if name[0] == '.' then "__" else [name[0]]) + ProviderName(name[1..])
  }

  /** `replace("__", ".")`. */
  function Dotted(s: string): string {
    if |s| < 2 then s
    else if s[0] == '_' && s[1] == '_' then "." + Dotted(s[2..])
    else [s[0]] + Dotted(s[1..])
  }

  /** `from_provider_tool_name`. */
  function CanonicalName(name: string, known: set<string>): string {
    if name !in known && Dotted(name) in known then Dotted(name) else name
  }

  /** No underscore comes before another one or a dot. */
  predicate Separable(name: string) {
    forall i :: 0 <= i < |name| - 1 && name[i] == '_' ==> name[i + 1] != '_' && name[i + 1] != '.'
  }

  lemma SeparableFirst(name: string)
    requires name != ""
    ensures Separable(name) <==>
      Separable(name[1..]) && !(name[0] == '_' && |name| > 1 && (name[1] == '_' || name[1] == '.'))
  {
    var rest := name[1..];
    forall i | 0 <= i < |rest|
      ensures rest[i] == name[i + 1]
    {
    }
    if Separable(name) {
      forall i | 0 <= i < |rest| - 1 && rest[i] == '_'
        ensures rest[i + 1] != '_' && rest[i + 1] != '.'
      {
        assert name[i + 1] == '_' && name[i + 2] == rest[i + 1];
      }
    }
    if Separable(rest) && !(name[0] == '_' && |name| > 1 && (name[1] == '_' || name[1] == '.')) {
      forall i | 0 <= i < |name| - 1 && name[i] == '_'
        ensures name[i + 1] != '_' && name[i + 1] != '.'
      {
        assert i > 0 ==> rest[i - 1] == name[i] && rest[i] == name[i + 1];
      }
    }
  }

  lemma SameTail(c: char, s: string, t: string)
    ensures [c] + s == [c] + t <==> s == t
  {
    assert ([c] + s)[1..] == s && ([c] + t)[1..] == t;
  }

  lemma DottedPair(s: string)
    ensures Dotted("__" + s) == "." + Dotted(s)
  {
    assert ("__" + s)[2..] == s;
  }

  lemma DottedOther(c: char, s: string)
    requires c != '_' || s == "" || s[0] != '_'
    ensures Dotted([c] + s) == [c] + Dotted(s)
  {
    assert ([c] + s)[1..] == s;
  }

  /** What a provider name starts with. */
  lemma ProviderFirst(name: string)
    requires name != ""
    ensures ProviderName(name) != ""
    ensures ProviderName(name)[0] == '_' <==> name[0] == '_' || name[0] == '.'
  {
  }

  /** Turning double underscores back into dots undoes the renaming exactly for separable names. */
  lemma {:induction false} DottedBackIff(name: string)
    ensures Dotted(ProviderName(name)) == name <==> Separable(name)
    decreases |name|
  {
    if name != "" {
      var c, rest := name[0], name[1..];
      var p := ProviderName(rest);
      DottedBackIff(rest);
      SeparableFirst(name);
      assert name == [c] + rest;
      if c == '.' {
        assert ProviderName(name) == "__" + p;
        DottedPair(p);
        SameTail('.', Dotted(p), rest);
      } else if c == '_' && rest != "" && (rest[0] == '_' || rest[0] == '.') {
        ProviderFirst(rest);
        assert ProviderName(name) == [c] + p && p[0] == '_';
        assert ([c] + p)[0] == '_' && ([c] + p)[1] == '_';
        assert Dotted(ProviderName(name))[0] == '.';
      } else {
        if rest != "" {
          ProviderFirst(rest);
        }
        assert ProviderName(name) == [c] + p;
        DottedOther(c, p);
        SameTail(c, Dotted(p), rest);
      }
    }
  }

  lemma {:induction false} NoDots(name: string)
    ensures '.' !in ProviderName(name)
    ensures ProviderName(name) == name <==> '.' !in name
    decreases |name|
  {
    if name != "" {
      NoDots(name[1..]);
      assert name == [name[0]] + name[1..];
      if name[0] != '.' {
        SameTail(name[0], ProviderName(name[1..]), name[1..]);
      } else {
        assert ProviderName(name)[0] == '_';
      }
    }
  }

  /**
    A known tool comes back under its own name exactly when it has no dot, or no known tool bears its provider name and
    no underscore of it comes before another one or a dot.
   */
  lemma CanonicalBackIff(name: string, known: set<string>)
    requires name in known
    ensures CanonicalName(ProviderName(name), known) == name <==>
      '.' !in name || (ProviderName(name) !in known && Separable(name))
  {
    NoDots(name);
    DottedBackIff(name);
  }

  /** So two such tools never share a provider name. */
  lemma ProviderNamesDiffer(a: string, b: string)
    requires Separable(a) && Separable(b) && ProviderName(a) == ProviderName(b)
    ensures a == b
  {
    DottedBackIff(a);
    DottedBackIff(b);
  }

  /** An underscore before a dot is moved behind it. */
  lemma UnderscoreMoves()
    ensures ProviderName("a_.b") == "a___b" && CanonicalName("a___b", {"a._b", "a_.b"}) == "a._b"
  {
    assert "a_.b"[1..] == "_.b" && "_.b"[1..] == ".b" && ".b"[1..] == "b" && "b"[1..] == "";
    DottedOther('a', "___b");
    DottedPair("_b");
    DottedOther('_', "b");
    assert "a" + "___b" == "a___b" && "__" + "_b" == "___b" && "_" + "b" == "_b";
    assert Dotted("a___b") == "a" + ("." + ("_" + "b")) == "a._b";
    assert |"a___b"| == 5 && |"a._b"| == 4;
  }
}
