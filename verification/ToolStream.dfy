/**
  The accumulator of streamed tool-call deltas: pieces of several calls arrive interleaved, keyed by index.
 */
module ToolStream {
  import opened Text
  import opened ToolNames

  /** One delta; an absent or empty id, name or argument piece changes nothing. */
  datatype Delta = Delta(index: int, id: string, name: string, arguments: string)

  /** A call under construction; "" stands for no id yet. */
  datatype Partial = Partial(id: string, name: string, arguments: string)

  const BLANK := Partial("", "", "")

  type Calls = map<int, Partial>

  function Extend(p: Partial, d: Delta): Partial {
    Partial(if d.id != "" then d.id else p.id, p.name + d.name, p.arguments + d.arguments)
  }

  function PartialAt(calls: Calls, index: int): Partial {
    if index in calls then calls[index] else BLANK
  }

  /** `add_delta`. */
  function Add(calls: Calls, d: Delta): Calls {
    calls[d.index := Extend(PartialAt(calls, d.index), d)]
  }

  function AddAll(calls: Calls, deltas: seq<Delta>): Calls
    decreases |deltas|
  {
    if deltas == [] then calls else AddAll(Add(calls, deltas[0]), deltas[1..])
  }

  // ---------------------------------------------------------------- one index at a time

  /** The deltas of one index, in order of arrival. */
  function Only(deltas: seq<Delta>, index: int): seq<Delta> {
    if deltas == [] then [] else (if deltas[0].index == index then [deltas[0]] else []) + Only(deltas[1..], index)
  }

  function Names(deltas: seq<Delta>): string {
    if deltas == [] then "" else deltas[0].name + Names(deltas[1..])
  }

  function Arguments(deltas: seq<Delta>): string {
    if deltas == [] then "" else deltas[0].arguments + Arguments(deltas[1..])
  }

  /** The last id that is not empty. */
  function LastId(deltas: seq<Delta>): string {
    if deltas == [] then ""
    else if LastId(deltas[1..]) != "" then LastId(deltas[1..])
    else deltas[0].id
  }

  /** A call after its deltas: names and arguments concatenated, the last id. */
  function Gathered(p: Partial, deltas: seq<Delta>): Partial {
    Partial(if LastId(deltas) != "" then LastId(deltas) else p.id,
            p.name + Names(deltas), p.arguments + Arguments(deltas))
  }

  lemma ExtendGathered(p: Partial, d: Delta, deltas: seq<Delta>)
    ensures Gathered(Extend(p, d), deltas) == Gathered(p, [d] + deltas)
  {
    assert ([d] + deltas)[1..] == deltas;
    assert p.name + d.name + Names(deltas) == p.name + (d.name + Names(deltas));
    assert p.arguments + d.arguments + Arguments(deltas) == p.arguments + (d.arguments + Arguments(deltas));
  }

  /** Every index ends up with exactly its own deltas gathered, whatever arrives in between. */
  lemma {:induction false} AddAllGathers(calls: Calls, deltas: seq<Delta>, index: int)
    ensures index in AddAll(calls, deltas) <==> index in calls || Only(deltas, index) != []
    ensures PartialAt(AddAll(calls, deltas), index) == Gathered(PartialAt(calls, index), Only(deltas, index))
    decreases |deltas|
  {
    var p := PartialAt(calls, index);
    if deltas == [] {
      assert p.name + "" == p.name && p.arguments + "" == p.arguments;
    } else {
      AddAllGathers(Add(calls, deltas[0]), deltas[1..], index);
      if deltas[0].index == index {
        ExtendGathered(p, deltas[0], Only(deltas[1..], index));
      } else {
        assert [] + Only(deltas[1..], index) == Only(deltas[1..], index);
      }
    }
  }

  lemma SameCalls(a: Calls, b: Calls)
    requires forall index: int :: (index in a <==> index in b) && PartialAt(a, index) == PartialAt(b, index)
    ensures a == b
  {
    forall index | index in a
      ensures index in b && a[index] == b[index]
    {
      assert PartialAt(a, index) == PartialAt(b, index);
    }
    forall index | index in b
      ensures index in a
    {
      assert PartialAt(a, index) == PartialAt(b, index);
    }
    assert a.Keys == b.Keys;
  }

  /** Two streams with the same deltas at each index build the same calls. */
  lemma Confluence(deltas: seq<Delta>, deltas': seq<Delta>)
    requires forall index: int :: Only(deltas, index) == Only(deltas', index)
    ensures AddAll(map[], deltas) == AddAll(map[], deltas')
  {
    var a, b := AddAll(map[], deltas), AddAll(map[], deltas');
    forall index: int
      ensures (index in a <==> index in b) && PartialAt(a, index) == PartialAt(b, index)
    {
      AddAllGathers(map[], deltas, index);
      AddAllGathers(map[], deltas', index);
    }
    SameCalls(a, b);
  }

  // ---------------------------------------------------------------- pieces

  lemma {:induction false} AddAllAppend(calls: Calls, a: seq<Delta>, b: seq<Delta>)
    ensures AddAll(calls, a + b) == AddAll(AddAll(calls, a), b)
    decreases |a|
  {
    if a == [] {
      assert a + b == b;
    } else {
      assert (a + b)[0] == a[0] && (a + b)[1..] == a[1..] + b;
      AddAllAppend(Add(calls, a[0]), a[1..], b);
    }
  }

  /** Pieces of one delta: its index throughout, its texts when put together, its id the last one given. */
  predicate PiecesOf(d: Delta, pieces: seq<Delta>) {
    && pieces != [] && (forall piece :: piece in pieces ==> piece.index == d.index)
    && Names(pieces) == d.name && Arguments(pieces) == d.arguments && LastId(pieces) == d.id
  }

  lemma {:induction false} PiecesGather(calls: Calls, pieces: seq<Delta>, index: int)
    requires pieces != [] && forall piece :: piece in pieces ==> piece.index == index
    ensures AddAll(calls, pieces) == calls[index := Gathered(PartialAt(calls, index), pieces)]
    decreases |pieces|
  {
    var d, rest := pieces[0], pieces[1..];
    var p := PartialAt(calls, index);
    assert pieces == [d] + rest;
    ExtendGathered(p, d, rest);
    if rest == [] {
      assert Extend(p, d).name + "" == Extend(p, d).name && Extend(p, d).arguments + "" == Extend(p, d).arguments;
    } else {
      PiecesGather(Add(calls, d), rest, index);
    }
  }

  /** Cutting a delta into pieces changes nothing, wherever in the stream it is. */
  lemma PiecesMakeNoDifference(before: seq<Delta>, d: Delta, pieces: seq<Delta>, after: seq<Delta>)
    requires PiecesOf(d, pieces)
    ensures AddAll(map[], before + pieces + after) == AddAll(map[], before + [d] + after)
  {
    var calls := AddAll(map[], before);
    AddAllAppend(map[], before + pieces, after);
    AddAllAppend(map[], before, pieces);
    AddAllAppend(map[], before + [d], after);
    AddAllAppend(map[], before, [d]);
    PiecesGather(calls, pieces, d.index);
    assert [d][1..] == [] && AddAll(calls, [d]) == Add(calls, d);
  }

  // ---------------------------------------------------------------- the finished calls

  datatype ToolCall<A> = ToolCall(id: string, name: string, arguments: A, rawName: string)

  function IntText(i: int): string { if i < 0 then "-" + Decimal(-i) else Decimal(i) }

  /** `parse` reads the argument text, with the empty object for what is not JSON. */
  function Finished<A>(p: Partial, index: int, known: set<string>, parse: string -> A): ToolCall<A> {
    ToolCall(if p.id != "" then p.id else "openai_tool_" + IntText(index), CanonicalName(p.name, known),
             parse(if p.arguments != "" then p.arguments else "{}"), p.name)
  }

  lemma IntTextDiffers(i: int, j: int)
    requires IntText(i) == IntText(j)
    ensures i == j
  {
    if i < 0 && j < 0 {
      assert IntText(i)[1..] == Decimal(-i) && IntText(j)[1..] == Decimal(-j);
      DecimalInjective(-i, -j);
    } else if i >= 0 && j >= 0 {
      DecimalInjective(i, j);
    } else {
      var k := if i < 0 then j else i;
      assert Decimal(k)[0] in Decimal(k);
    }
  }

  /**
    A finished call has the id that came, or one made of its index that no other index gets; its tool is looked up by
    the name as it came; empty argument text stands for the empty object.
   */
  lemma FinishedExact<A>(p: Partial, index: int, known: set<string>, parse: string -> A)
    ensures var call := Finished(p, index, known, parse);
      && call.rawName == p.name && call.name == CanonicalName(p.name, known)
      && (p.id != "" ==> call.id == p.id)
      && (p.id == "" ==> |call.id| > 12 && call.id[..12] == "openai_tool_")
      && (forall q: Partial, j: int :: p.id == "" && q.id == "" && j != index ==>
            Finished(q, j, known, parse).id != call.id)
      && (p.arguments != "" ==> call.arguments == parse(p.arguments))
      && (p.arguments == "" ==> call.arguments == parse("{}"))
  {
    if p.id == "" {
      var text := IntText(index);
      assert ("openai_tool_" + text)[..12] == "openai_tool_";
      forall q: Partial, j: int | q.id == "" && j != index
        ensures Finished(q, j, known, parse).id != Finished(p, index, known, parse).id
      {
        assert ("openai_tool_" + text)[12..] == text && ("openai_tool_" + IntText(j))[12..] == IntText(j);
        if IntText(j) == text {
          IntTextDiffers(j, index);
        }
      }
    }
  }

  function FinishedAt<A>(calls: Calls, index: int, known: set<string>, parse: string -> A): ToolCall<A> {
    Finished(PartialAt(calls, index), index, known, parse)
  }

  /** The calls of a list of indices. */
  function FinishedAll<A>(calls: Calls, order: seq<int>, known: set<string>, parse: string -> A): seq<ToolCall<A>> {
    seq(|order|, i requires 0 <= i < |order| => FinishedAt(calls, order[i], known, parse))
  }

  ghost predicate Increasing(order: seq<int>) {
    forall i, j :: 0 <= i < j < |order| ==> order[i] < order[j]
  }

  ghost predicate Lists(order: seq<int>, indices: set<int>) {
    Increasing(order) && forall i :: i in indices <==> i in order
  }

  /** A set has one increasing listing. */
  lemma {:induction false} OneOrder(a: seq<int>, b: seq<int>, indices: set<int>)
    requires Lists(a, indices) && Lists(b, indices)
    ensures a == b
    decreases |a|
  {
    EmptyListing(a, indices);
    EmptyListing(b, indices);
    if a != [] {
      var m, n := a[|a| - 1], b[|b| - 1];
      assert m in a && n in b && m in b && n in a;
      assert m == n;
      WithoutLast(a, indices);
      WithoutLast(b, indices);
      OneOrder(a[..|a| - 1], b[..|b| - 1], indices - {m});
      assert a == a[..|a| - 1] + [m] && b == b[..|b| - 1] + [n];
    }
  }

  lemma EmptyListing(a: seq<int>, indices: set<int>)
    requires Lists(a, indices)
    ensures a == [] <==> indices == {}
  {
    if a != [] {
      assert a[0] in a;
    } else {
      assert forall i :: i !in indices;
    }
  }

  lemma Larger(order: seq<int>, index: int)
    requires Increasing(order) && forall i :: i in order ==> i < index
    ensures Increasing(order + [index]) && forall i :: i in order + [index] <==> i in order || i == index
  {
    assert forall k :: 0 <= k < |order| ==> order[k] in order;
  }

  lemma WithoutLast(a: seq<int>, indices: set<int>)
    requires a != [] && Lists(a, indices)
    ensures Lists(a[..|a| - 1], indices - {a[|a| - 1]})
  {
    var n := |a| - 1;
    assert a == a[..n] + [a[n]];
  }

  ghost function Minimum(s: set<int>): (m: int)
    requires s != {}
    ensures m in s && forall x :: x in s ==> m <= x
    decreases |s|
  {
    Inhabited(s);
    var x :| x in s;
    if s == {x} then x
    else
      assert s - {x} != {} && s == (s - {x}) + {x};
      var m := Minimum(s - {x});
      if x < m then x else m
  }

  lemma Inhabited(s: set<int>)
    requires s != {}
    ensures exists x :: x in s
  {
    var x := Member(s);
  }

  /** The members of a set in increasing order. */
  ghost function Ascending(s: set<int>): (order: seq<int>)
    ensures Lists(order, s)
    decreases |s|
  {
    if s == {} then []
    else
      var m := Minimum(s);
      var rest := Ascending(s - {m});
      assert forall i :: 0 <= i < |rest| ==> rest[i] in rest;
      [m] + rest
  }

  lemma Member<T>(s: set<T>) returns (x: T)
    requires s != {}
    ensures x in s
  {
    x :| x in s;
  }

  method Least(s: set<int>) returns (m: int)
    requires s != {}
    ensures m in s && forall x :: x in s ==> m <= x
  {
    ghost var some := Member(s);
    m :| m in s;
    var left := s - {m};
    while left != {}
      invariant left <= s && m in s
      invariant forall x :: x in s && x !in left ==> m <= x
      decreases |left|
    {
      ghost var other := Member(left);
      var x :| x in left;
      left := left - {x};
      if x < m {
        m := x;
      }
    }
  }

  class Accumulator {
    const known: set<string>
    var calls: Calls

    constructor (known: set<string>)
      ensures this.known == known && calls == map[]
    {
      this.known, calls := known, map[];
    }

    method AddDelta(d: Delta)
      modifies this`calls
      ensures calls == Add(old(calls), d)
    {
      var call := BLANK;
      if d.index in calls {
        call := calls[d.index];
      }
      if d.id != "" {
        call := call.(id := d.id);
      }
      if d.name != "" {
        call := call.(name := call.name + d.name);
      }
      if d.arguments != "" {
        call := call.(arguments := call.arguments + d.arguments);
      }
      assert call == Extend(PartialAt(calls, d.index), d);
      calls := calls[d.index := call];
    }

    /** The finished calls in the order of their indices. */
    method ToolCalls<A>(parse: string -> A) returns (result: seq<ToolCall<A>>)
      ensures result == FinishedAll(calls, Ascending(calls.Keys), known, parse)
    {
      result := [];
      ghost var order: seq<int> := [];
      var left := calls.Keys;
      while left != {}
        invariant left <= calls.Keys && Increasing(order)
        invariant forall i :: i in calls.Keys - left <==> i in order
        invariant forall i, j :: i in order && j in left ==> i < j
        invariant result == FinishedAll(calls, order, known, parse)
        decreases |left|
      {
        var index := Least(left);
        left := left - {index};
        Larger(order, index);
        result := result + [Finished(calls[index], index, known, parse)];
        order := order + [index];
      }
      OneOrder(order, Ascending(calls.Keys), calls.Keys);
    }

    /** A whole stream. */
    method Receive(deltas: seq<Delta>)
      modifies this`calls
      ensures calls == AddAll(old(calls), deltas)
    {
      for i := 0 to |deltas|
        invariant AddAll(calls, deltas[i..]) == AddAll(old(calls), deltas)
      {
        assert deltas[i..][0] == deltas[i] && deltas[i..][1..] == deltas[i + 1..];
        AddDelta(deltas[i]);
      }
    }
  }
}
