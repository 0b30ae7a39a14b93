/**
  The context-budget trimmer: a greedy pass from the newest message backwards that drops what no
  longer fits, except the protected suffix and the messages that may not be trimmed.
 */
module ContextBudget {
  import opened Wrappers

  datatype Role = User | Assistant | OtherRole

  /** A message as the trimmer sees it; `chars` is what its content blocks add up to. */
  datatype Message = Message(role: Role, nodeType: string, synthetic: bool, nodeId: Option<string>, chars: nat)

  /** One token for every full four characters, and at least one. */
  function Tokens(m: Message): (t: nat)
    ensures m.chars < 4 ==> t == 1
    ensures m.chars >= 4 ==> 4 * t <= m.chars < 4 * (t + 1)
  {
    if m.chars / 4 >= 1 then m.chars / 4 else 1
  }

  function Max(a: int, b: int): int { if a >= b then a else b }

  function Total(ms: seq<Message>): nat {
    if ms == [] then 0 else Tokens(ms[0]) + Total(ms[1..])
  }

  predicate CanTrim(m: Message) {
    !m.synthetic && m.nodeType != "task_board" && m.nodeType != "compaction"
  }

  /** A user message that starts a turn. */
  predicate Anchor(m: Message) {
    m.role.User? && (m.nodeType == "message" || m.nodeType == "hook_context" || m.nodeType == "worker_dispatch")
  }

  /** What must not go: synthetic messages, the task board and compactions. */
  predicate MustKeep(m: Message) { m.synthetic || m.nodeType in {"task_board", "compaction"} }

  predicate StartsTurn(m: Message) { m.role == User && m.nodeType in {"message", "hook_context", "worker_dispatch"} }

  /** p is the last message that starts a turn, or the last message when none does. */
  ghost predicate IsProtectedStart(ms: seq<Message>, p: nat) {
    if exists i :: 0 <= i < |ms| && StartsTurn(ms[i])
    then p < |ms| && StartsTurn(ms[p]) && forall i :: p < i < |ms| ==> !StartsTurn(ms[i])
    else p == if ms == [] then 0 else |ms| - 1
  }

  /** `_protected_message_suffix_start`. */
  method ProtectedMessageSuffixStart(ms: seq<Message>) returns (p: nat)
    ensures IsProtectedStart(ms, p)
  {
    var i := |ms|;
    while i > 0
      invariant 0 <= i <= |ms|
      invariant forall k :: i <= k < |ms| ==> !StartsTurn(ms[k])
    {
      i := i - 1;
      if Anchor(ms[i]) {
        return i;
      }
    }
    p := if |ms| > 0 then |ms| - 1 else 0;
  }

  // ---------------------------------------------------------------- the greedy pass

  /** Whether message i is dropped, given what is retained of the messages after it. */
  predicate Drops(ms: seq<Message>, p: nat, budget: int, i: nat, later: seq<Message>)
    requires i < |ms|
  {
    later != [] && Total(later) + Tokens(ms[i]) > budget && i < p && CanTrim(ms[i])
  }

  /** What is retained of the messages from i on. */
  function Retained(ms: seq<Message>, p: nat, budget: int, i: nat): seq<Message>
    requires i <= |ms|
    decreases |ms| - i
  {
    if i == |ms| then []
    else
      var later := Retained(ms, p, budget, i + 1);
      if Drops(ms, p, budget, i, later) then later else [ms[i]] + later
  }

  /** What is dropped of the messages from i on. */
  function Dropped(ms: seq<Message>, p: nat, budget: int, i: nat): seq<Message>
    requires i <= |ms|
    decreases |ms| - i
  {
    if i == |ms| then []
    else
      var later := Dropped(ms, p, budget, i + 1);
      if Drops(ms, p, budget, i, Retained(ms, p, budget, i + 1)) then [ms[i]] + later else later
  }

  function NodeIds(ms: seq<Message>): seq<string> {
    if ms == [] then []
    else (if ms[0].nodeId.Some? then [ms[0].nodeId.value] else []) + NodeIds(ms[1..])
  }

  function Reverse<T>(s: seq<T>): seq<T> {
    if s == [] then [] else Reverse(s[1..]) + [s[0]]
  }

  lemma {:induction false} ReverseSnoc<T>(s: seq<T>, x: T)
    ensures Reverse(s + [x]) == [x] + Reverse(s)
  {
    if s == [] {
      assert Reverse([x]) == Reverse<T>([]) + [x];
    } else {
      assert (s + [x])[1..] == s[1..] + [x] && (s + [x])[0] == s[0];
      ReverseSnoc(s[1..], x);
    }
  }

  /** The report: tokens before and after trimming, of the messages alone and with the system blocks. */
  datatype Budgeted = Budgeted(
    messages: seq<Message>,
    trimmedNodeIds: seq<string>,
    budget: int,
    totalBefore: nat,
    totalAfter: nat,
    before: nat,
    after: nat,
    tooLong: bool)

  /** What the backward loop has built when it has passed the messages from i on. */
  ghost predicate Passed(ms: seq<Message>, p: nat, budget: int, i: nat, kept: seq<Message>, tokens: nat,
                         ids: seq<string>)
    requires i <= |ms|
  {
    && kept == Retained(ms, p, budget, i) && tokens == Total(kept)
    && ids == NodeIds(Dropped(ms, p, budget, i))
  }

  lemma DroppedNext(ms: seq<Message>, p: nat, budget: int, i: nat, kept: seq<Message>, tokens: nat, ids: seq<string>)
    requires i < |ms| && Passed(ms, p, budget, i + 1, kept, tokens, ids)
    requires kept != [] && tokens + Tokens(ms[i]) > budget && i < p && CanTrim(ms[i])
    ensures Passed(ms, p, budget, i, kept, tokens, (if ms[i].nodeId.Some? then [ms[i].nodeId.value] else []) + ids)
    ensures [] + ids == ids
  {
    var dropped := Dropped(ms, p, budget, i + 1);
    assert ([ms[i]] + dropped)[1..] == dropped;
  }

  lemma RetainedNext(ms: seq<Message>, p: nat, budget: int, i: nat, kept: seq<Message>, tokens: nat, ids: seq<string>)
    requires i < |ms| && Passed(ms, p, budget, i + 1, kept, tokens, ids)
    requires !(kept != [] && tokens + Tokens(ms[i]) > budget && i < p && CanTrim(ms[i]))
    ensures Passed(ms, p, budget, i, [ms[i]] + kept, tokens + Tokens(ms[i]), ids)
  {
    assert ([ms[i]] + kept)[1..] == kept;
  }

  /** The backward loop. */
  method TrimBackwards(ms: seq<Message>, p: nat, budget: int) returns (retained: seq<Message>, trimmed: seq<string>)
    ensures retained == Retained(ms, p, budget, 0) && trimmed == NodeIds(Dropped(ms, p, budget, 0))
  {
    var retainedReversed: seq<Message> := [];
    var retainedTokens: nat := 0;
    var trimmedReversed: seq<string> := [];
    var i := |ms|;
    while i > 0
      invariant 0 <= i <= |ms|
      invariant Passed(ms, p, budget, i, Reverse(retainedReversed), retainedTokens, Reverse(trimmedReversed))
      invariant retainedReversed == [] <==> Reverse(retainedReversed) == []
    {
      i := i - 1;
      var m := ms[i];
      if retainedReversed != [] && retainedTokens + Tokens(m) > budget && i < p && CanTrim(m) {
        DroppedNext(ms, p, budget, i, Reverse(retainedReversed), retainedTokens, Reverse(trimmedReversed));
        if m.nodeId.Some? {
          ReverseSnoc(trimmedReversed, m.nodeId.value);
          trimmedReversed := trimmedReversed + [m.nodeId.value];
        }
      } else {
        RetainedNext(ms, p, budget, i, Reverse(retainedReversed), retainedTokens, Reverse(trimmedReversed));
        ReverseSnoc(retainedReversed, m);
        retainedReversed := retainedReversed + [m];
        retainedTokens := retainedTokens + Tokens(m);
      }
    }
    retained, trimmed := Reverse(retainedReversed), Reverse(trimmedReversed);
  }

  /** `_apply_context_budget`. */
  method ApplyContextBudget(ms: seq<Message>, configured: Option<int>, window: int, maxOutput: int, systemTokens: nat)
    returns (r: Budgeted)
    ensures configured.Some? ==> r.budget == configured.value
    ensures configured.None? ==> r.budget >= 0 && (r.budget > 0 ==> systemTokens + r.budget + maxOutput == window)
    ensures configured.None? && r.budget == 0 ==> systemTokens + maxOutput >= window
    ensures configured.None? && r.budget > 0 && !r.tooLong ==> r.totalAfter + maxOutput <= window
    ensures configured.None? && r.totalBefore + maxOutput <= window ==> r.messages == ms && !r.tooLong
    ensures r.before == Total(ms) && r.after == Total(r.messages)
    ensures r.totalBefore == systemTokens + r.before && r.totalAfter == systemTokens + r.after
    ensures r.budget <= 0 ==> r.messages == ms && r.trimmedNodeIds == []
    ensures r.budget > 0 ==> exists p: nat :: (IsProtectedStart(ms, p)
      && r.messages == Retained(ms, p, r.budget, 0) && r.trimmedNodeIds == NodeIds(Dropped(ms, p, r.budget, 0)))
    ensures r.tooLong <==> r.after > (if r.budget > 0 then r.budget else 0)
  {
    var budget: int;
    if configured.Some? {
      budget := configured.value;
    } else {
      budget := window - maxOutput - systemTokens;
      if budget < 0 {
        budget := 0;
      }
    }
    var before := Total(ms);
    if budget <= 0 {
      SomeTokens(ms);
      return Budgeted(ms, [], budget, systemTokens + before, systemTokens + before, before, before, before > 0);
    }
    var p := ProtectedMessageSuffixStart(ms);
    var retained, trimmed := TrimBackwards(ms, p, budget);
    if before <= budget {
      FittingKept(ms, p, budget, 0);
    }
    var after := Total(retained);
    r := Budgeted(retained, trimmed, budget, systemTokens + before, systemTokens + after, before,
                  after, after > budget);
  }

  // ---------------------------------------------------------------- what the pass guarantees

  lemma SomeTokens(ms: seq<Message>)
    ensures Total(ms) == 0 <==> ms == []
  {
  }

  lemma TotalFirst(m: Message, ms: seq<Message>)
    ensures Total([m] + ms) == Tokens(m) + Total(ms)
  {
    assert ([m] + ms)[1..] == ms;
  }

  /** When all messages fit, all are kept. */
  lemma {:induction false} FittingKept(ms: seq<Message>, p: nat, budget: int, i: nat)
    requires i <= |ms| && Total(ms[i..]) <= budget
    ensures Retained(ms, p, budget, i) == ms[i..]
    decreases |ms| - i
  {
    if i < |ms| {
      assert ms[i..] == [ms[i]] + ms[i + 1..];
      TotalFirst(ms[i], ms[i + 1..]);
      FittingKept(ms, p, budget, i + 1);
    }
  }

  /** Tokens of the messages before p, from i on, that may not be trimmed. */
  function Untrimmable(ms: seq<Message>, p: nat, i: nat): nat
    requires i <= p <= |ms|
    decreases p - i
  {
    if i == p then 0 else (if CanTrim(ms[i]) then 0 else Tokens(ms[i])) + Untrimmable(ms, p, i + 1)
  }

  lemma {:induction false} SuffixKept(ms: seq<Message>, p: nat, budget: int, i: nat)
    requires p <= i <= |ms|
    ensures Retained(ms, p, budget, i) == ms[i..] && Dropped(ms, p, budget, i) == []
    decreases |ms| - i
  {
    if i < |ms| {
      SuffixKept(ms, p, budget, i + 1);
      assert ms[i..] == [ms[i]] + ms[i + 1..];
    }
  }

  /** Budget bound: at most the larger of the budget and the protected suffix, plus what may not be trimmed. */
  lemma {:induction false} RetainedBound(ms: seq<Message>, p: nat, budget: int, i: nat)
    requires i <= p <= |ms| && (ms != [] ==> p < |ms|)
    ensures Total(Retained(ms, p, budget, i)) <= Max(budget, Total(ms[p..])) + Untrimmable(ms, p, i)
    ensures i < |ms| ==> Retained(ms, p, budget, i) != []
    decreases p - i
  {
    if i == p {
      SuffixKept(ms, p, budget, i);
    } else {
      RetainedBound(ms, p, budget, i + 1);
      RetainedTotal(ms, p, budget, i, Retained(ms, p, budget, i + 1));
    }
  }

  lemma RetainedTotal(ms: seq<Message>, p: nat, budget: int, i: nat, later: seq<Message>)
    requires i < |ms| && later == Retained(ms, p, budget, i + 1)
    ensures Total(Retained(ms, p, budget, i))
         == if Drops(ms, p, budget, i, later) then Total(later) else Tokens(ms[i]) + Total(later)
    ensures Retained(ms, p, budget, i) != []
  {
    assert ([ms[i]] + later)[1..] == later;
  }

  /** Nothing is lost: retained and dropped tokens add up to all of them. */
  lemma {:induction false} TokensConserved(ms: seq<Message>, p: nat, budget: int, i: nat)
    requires i <= |ms|
    ensures Total(Retained(ms, p, budget, i)) + Total(Dropped(ms, p, budget, i)) == Total(ms[i..])
    decreases |ms| - i
  {
    if i < |ms| {
      TokensConserved(ms, p, budget, i + 1);
      assert ms[i..][1..] == ms[i + 1..];
      var r, d := Retained(ms, p, budget, i + 1), Dropped(ms, p, budget, i + 1);
      assert ([ms[i]] + r)[1..] == r && ([ms[i]] + d)[1..] == d;
    }
  }

  /** Increasing positions of some of the messages from `from` on. */
  ghost predicate Positions(ms: seq<Message>, from: nat, some: seq<Message>, at: seq<nat>) {
    && |at| == |some|
    && (forall k :: 0 <= k < |at| ==> from <= at[k] < |ms| && some[k] == ms[at[k]])
    && (forall k, l :: 0 <= k < l < |at| ==> at[k] < at[l])
  }

  /** Every message from `from` on is either kept or gone. */
  ghost predicate Apart(ms: seq<Message>, from: nat, at: seq<nat>, gone: seq<nat>) {
    forall j :: from <= j < |ms| ==> (j in at <==> j !in gone)
  }

  /** Message j lies just before the k-th kept one. */
  predicate JustBefore(at: seq<nat>, k: nat, j: nat)
    requires k < |at|
  {
    j < at[k] && (k > 0 ==> at[k - 1] < j)
  }

  /** Message j fits beside these later ones. */
  predicate FitsBeside(m: Message, later: seq<Message>, budget: int) { Tokens(m) + Total(later) <= budget }

  /**
    The greedy choice, newest message first: the newest is kept; of the others are kept those that are protected, those
    that must be kept and those that fit beside what is kept of the newer ones, and no others.
   */
  ghost predicate Greedy(ms: seq<Message>, p: nat, budget: int, from: nat, kept: seq<Message>, at: seq<nat>) {
    && |at| == |kept|
    && (from < |ms| ==> at != [] && at[|at| - 1] == |ms| - 1)
    && (forall k :: 0 <= k < |at| - 1 ==>
          at[k] >= p || MustKeep(kept[k]) || FitsBeside(kept[k], kept[k + 1..], budget))
    && (forall j: nat, k: nat :: k < |at| && from <= j < |ms| && JustBefore(at, k, j) ==>
          j < p && !MustKeep(ms[j]) && !FitsBeside(ms[j], kept[k..], budget))
  }

  lemma {:induction false} RetainedPositions(ms: seq<Message>, p: nat, budget: int, i: nat)
    returns (at: seq<nat>, gone: seq<nat>)
    requires i <= |ms|
    ensures Positions(ms, i, Retained(ms, p, budget, i), at) && Positions(ms, i, Dropped(ms, p, budget, i), gone)
    ensures Apart(ms, i, at, gone) && Greedy(ms, p, budget, i, Retained(ms, p, budget, i), at)
    decreases |ms| - i
  {
    if i == |ms| {
      at, gone := [], [];
    } else {
      at, gone := RetainedPositions(ms, p, budget, i + 1);
      var kept, dropped := Retained(ms, p, budget, i + 1), Dropped(ms, p, budget, i + 1);
      if Drops(ms, p, budget, i, kept) {
        PositionsMore(ms, i, dropped, gone);
        ApartMore(ms, i, gone, at);
        GreedyDrops(ms, p, budget, i, kept, at);
        gone := [i] + gone;
      } else {
        PositionsMore(ms, i, kept, at);
        ApartMore(ms, i, at, gone);
        GreedyKeeps(ms, p, budget, i, kept, at);
        at := [i] + at;
      }
    }
  }

  lemma PositionsMore(ms: seq<Message>, i: nat, some: seq<Message>, at: seq<nat>)
    requires i < |ms| && Positions(ms, i + 1, some, at)
    ensures Positions(ms, i, [ms[i]] + some, [i] + at)
  {
  }

  lemma ApartMore(ms: seq<Message>, i: nat, at: seq<nat>, gone: seq<nat>)
    requires i < |ms| && (Apart(ms, i + 1, at, gone) || Apart(ms, i + 1, gone, at))
    requires (forall k :: 0 <= k < |at| ==> at[k] > i) && forall k :: 0 <= k < |gone| ==> gone[k] > i
    ensures Apart(ms, i, [i] + at, gone) && Apart(ms, i, gone, [i] + at)
  {
    forall j | i < j
      ensures j in [i] + at <==> j in at
    {
    }
  }

  lemma GreedyDrops(ms: seq<Message>, p: nat, budget: int, i: nat, kept: seq<Message>, at: seq<nat>)
    requires i < |ms| && Greedy(ms, p, budget, i + 1, kept, at) && Positions(ms, i + 1, kept, at)
    requires Drops(ms, p, budget, i, kept)
    ensures Greedy(ms, p, budget, i, kept, at)
  {
    assert kept[0..] == kept;
  }

  lemma GreedyKeeps(ms: seq<Message>, p: nat, budget: int, i: nat, kept: seq<Message>, at: seq<nat>)
    requires i < |ms| && Greedy(ms, p, budget, i + 1, kept, at) && Positions(ms, i + 1, kept, at)
    requires !Drops(ms, p, budget, i, kept)
    ensures Greedy(ms, p, budget, i, [ms[i]] + kept, [i] + at)
  {
    var kept', at' := [ms[i]] + kept, [i] + at;
    forall k | 0 <= k <= |kept|
      ensures kept'[k + 1..] == kept[k..]
    {
    }
    assert kept[0..] == kept;
    forall k | 0 <= k < |at'| - 1
      ensures at'[k] >= p || MustKeep(kept'[k]) || FitsBeside(kept'[k], kept'[k + 1..], budget)
    {
      if k > 0 {
        assert kept'[k] == kept[k - 1] && at'[k] == at[k - 1];
      }
    }
    forall j: nat, k: nat | k < |at'| && i <= j < |ms| && JustBefore(at', k, j)
      ensures j < p && !MustKeep(ms[j]) && !FitsBeside(ms[j], kept'[k..], budget)
    {
      BeforeShifted(at, i, k, j);
    }
  }

  lemma BeforeShifted(at: seq<nat>, i: nat, k: nat, j: nat)
    requires k <= |at| && i <= j && JustBefore([i] + at, k, j)
    ensures k > 0 && (k == 1 ==> i < j) && JustBefore(at, k - 1, j)
  {
    var longer := [i] + at;
    assert longer[0] == i && forall x :: 0 <= x < |at| ==> longer[x + 1] == at[x];
    assert longer[k] == at[k - 1] && (k > 1 ==> longer[k - 1] == at[k - 2]);
  }

  function IdOf(m: Message): seq<string> { if m.nodeId.Some? then [m.nodeId.value] else [] }

  lemma NodeIdsFirst(m: Message, ms: seq<Message>)
    ensures NodeIds([m] + ms) == IdOf(m) + NodeIds(ms)
  {
    assert ([m] + ms)[1..] == ms;
  }

  lemma Joined<T>(a: seq<T>, b: seq<T>, c: seq<T>)
    ensures a + b + c == a + (b + c)
  {
  }

  lemma {:induction false} NodeIdsLonger(ms: seq<Message>, m: Message)
    ensures NodeIds(ms + [m]) == NodeIds(ms) + IdOf(m)
    decreases |ms|
  {
    if ms == [] {
      NodeIdsFirst(m, []);
      assert [m] + [] == [] + [m];
    } else {
      var first, rest := ms[0], ms[1..];
      NodeIdsLonger(rest, m);
      NodeIdsFirst(first, rest);
      NodeIdsFirst(first, rest + [m]);
      assert ms == [first] + rest;
      Joined([first], rest, [m]);
      Joined(IdOf(first), NodeIds(rest), IdOf(m));
    }
  }

  /** These are the ids of exactly the messages that have one, in their order. */
  ghost predicate IdsAt(ms: seq<Message>, at: seq<nat>, ids: seq<string>) {
    && |at| == |ids|
    && (forall k :: 0 <= k < |at| ==> at[k] < |ms| && ms[at[k]].nodeId == Some(ids[k]))
    && (forall k, l :: 0 <= k < l < |at| ==> at[k] < at[l])
    && (forall i :: 0 <= i < |ms| && ms[i].nodeId.Some? ==> i in at)
  }

  lemma IdsAtLonger(ms: seq<Message>, m: Message, at: seq<nat>, ids: seq<string>)
    requires IdsAt(ms, at, ids)
    ensures m.nodeId.Some? ==> IdsAt(ms + [m], at + [|ms|], ids + [m.nodeId.value])
    ensures m.nodeId.None? ==> IdsAt(ms + [m], at, ids)
  {
    var more := at + [|ms|];
    assert more[|at|] == |ms| && forall k :: 0 <= k < |at| ==> more[k] == at[k];
    forall i | 0 <= i < |ms| && i in at
      ensures i in more
    {
      var k :| 0 <= k < |at| && at[k] == i;
      assert more[k] == i;
    }
  }

  lemma {:induction false} NodeIdsPositions(ms: seq<Message>) returns (at: seq<nat>)
    ensures IdsAt(ms, at, NodeIds(ms))
    decreases |ms|
  {
    at := [];
    if ms != [] {
      var front, last := ms[..|ms| - 1], ms[|ms| - 1];
      at := NodeIdsPositions(front);
      IdsAtLonger(front, last, at, NodeIds(front));
      NodeIdsLonger(front, last);
      if last.nodeId.Some? {
        at := at + [|front|];
      }
      assert NodeIds(front) + [] == NodeIds(front);
      assert front + [last] == ms;
    }
  }

  // ---------------------------------------------------------------- a second pass

  /** From position i on, the longer list of messages is kept like the shorter one. */
  ghost predicate Shifted(longer: seq<Message>, ms: seq<Message>, p: nat, budget: int, i: nat)
    requires i <= |ms| && |longer| == |ms| + 1
  {
    Retained(longer, p + 1, budget, i + 1) == Retained(ms, p, budget, i)
  }

  lemma ShiftStep(longer: seq<Message>, ms: seq<Message>, p: nat, budget: int, i: nat)
    requires i < |ms| && |longer| == |ms| + 1 && longer[i + 1] == ms[i] && Shifted(longer, ms, p, budget, i + 1)
    ensures Shifted(longer, ms, p, budget, i)
  {
  }

  /** Prepending a message shifts the pass by one. */
  lemma {:induction false} ShiftPass(m: Message, ms: seq<Message>, p: nat, budget: int, i: nat)
    requires i <= |ms|
    ensures Shifted([m] + ms, ms, p, budget, i)
    decreases |ms| - i
  {
    if i < |ms| {
      ShiftPass(m, ms, p, budget, i + 1);
      ShiftStep([m] + ms, ms, p, budget, i);
    }
  }

  /** The protected start of what is retained from i on. */
  function NewStart(ms: seq<Message>, p: nat, budget: int, i: nat): nat
    requires i <= |ms|
    decreases |ms| - i
  {
    if i >= p || i == |ms| then 0
    else
      var later := Retained(ms, p, budget, i + 1);
      NewStart(ms, p, budget, i + 1) + (if Drops(ms, p, budget, i, later) then 0 else 1)
  }

  lemma {:induction false} SecondPassFrom(ms: seq<Message>, p: nat, budget: int, i: nat)
    requires i <= |ms|
    ensures var r := Retained(ms, p, budget, i);
      Retained(r, NewStart(ms, p, budget, i), budget, 0) == r
    decreases |ms| - i
  {
    if i >= p || i == |ms| {
      SuffixKept(Retained(ms, p, budget, i), 0, budget, 0);
    } else {
      SecondPassFrom(ms, p, budget, i + 1);
      var later := Retained(ms, p, budget, i + 1);
      if !Drops(ms, p, budget, i, later) {
        ShiftPass(ms[i], later, NewStart(ms, p, budget, i + 1), budget, 0);
      }
    }
  }

  lemma {:induction false} RetainedSplits(ms: seq<Message>, p: nat, budget: int, i: nat)
    requires i <= p <= |ms|
    ensures var r, q := Retained(ms, p, budget, i), NewStart(ms, p, budget, i);
      && q <= |r| && r[q..] == ms[p..]
      && (forall k :: 0 <= k < q ==> r[k] in ms)
    decreases p - i
  {
    if i == p {
      SuffixKept(ms, p, budget, i);
    } else {
      RetainedSplits(ms, p, budget, i + 1);
      var later := Retained(ms, p, budget, i + 1);
      if !Drops(ms, p, budget, i, later) {
        var q := NewStart(ms, p, budget, i + 1);
        assert ([ms[i]] + later)[q + 1..] == later[q..];
        assert forall k :: 0 < k < q + 1 ==> ([ms[i]] + later)[k] == later[k - 1];
      }
    }
  }

  /** Keeping the suffix and some of the rest keeps the protected start at the head of the suffix. */
  lemma SuffixProtected(ms: seq<Message>, p: nat, r: seq<Message>, q: nat)
    requires IsProtectedStart(ms, p) && p <= |ms| && q <= |r| && r[q..] == ms[p..]
    requires forall k :: 0 <= k < q ==> r[k] in ms
    requires ms == [] ==> r == []
    ensures IsProtectedStart(r, q)
  {
    assert forall k :: q <= k < |r| ==> r[k] == r[q..][k - q] && ms[p..][k - q] == ms[p + (k - q)];
    if exists i :: 0 <= i < |ms| && StartsTurn(ms[i]) {
      assert StartsTurn(r[q]);
    } else {
      assert forall k :: 0 <= k < |r| ==> r[k] in ms;
    }
  }

  lemma ProtectedStartUnique(ms: seq<Message>, p: nat, q: nat)
    requires IsProtectedStart(ms, p) && IsProtectedStart(ms, q)
    ensures p == q
  {
  }

  /** A second pass with the same budget finds nothing to drop. */
  lemma SecondPassChangesNothing(ms: seq<Message>, p: nat, budget: int, q: nat)
    requires IsProtectedStart(ms, p) && IsProtectedStart(Retained(ms, p, budget, 0), q)
    ensures Retained(Retained(ms, p, budget, 0), q, budget, 0) == Retained(ms, p, budget, 0)
    ensures Dropped(Retained(ms, p, budget, 0), q, budget, 0) == []
  {
    var r := Retained(ms, p, budget, 0);
    RetainedSplits(ms, p, budget, 0);
    SuffixProtected(ms, p, r, NewStart(ms, p, budget, 0));
    ProtectedStartUnique(r, q, NewStart(ms, p, budget, 0));
    SecondPassFrom(ms, p, budget, 0);
    TokensConserved(r, q, budget, 0);
    assert r[0..] == r;
    SomeTokens(Dropped(r, q, budget, 0));
  }
}
