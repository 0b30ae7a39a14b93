/**
  The tool-call scheduler: consecutive read-only calls run concurrently, every other call runs alone,
  and the first failing write stops the rest.

  A call is a sequence of atomic steps over its own local state and the shared state.  The concurrent
  part picks any unfinished call of the batch for each step (`:|`), so what is proved holds for every
  interleaving.
 */
module ToolScheduler {

  datatype ToolDefinition = ToolDefinition(name: string, writePermission: bool, tags: set<string>)

  /** The definition that the name dictionary keeps: the last one with this name. */
  predicate IsWrite(definitions: seq<ToolDefinition>, name: string) {
    if definitions == [] then true
    else
      var n := |definitions| - 1;
      if definitions[n].name == name then definitions[n].writePermission || "write" in definitions[n].tags
      else IsWrite(definitions[..n], name)
  }

  /** The i-th definition is the last with this name, and neither its permission nor its tags say that it writes. */
  predicate ReadOnlyAt(definitions: seq<ToolDefinition>, i: nat, name: string)
    requires i < |definitions|
  {
    && definitions[i].name == name && !definitions[i].writePermission && "write" !in definitions[i].tags
    && forall j :: i < j < |definitions| ==> definitions[j].name != name
  }

  /** A call is read-only exactly when its tool has such a definition; a call without a definition counts as a write. */
  lemma {:induction false} ReadOnlyIff(definitions: seq<ToolDefinition>, name: string)
    ensures !IsWrite(definitions, name) <==> exists i :: 0 <= i < |definitions| && ReadOnlyAt(definitions, i, name)
    decreases |definitions|
  {
    if definitions != [] {
      var n := |definitions| - 1;
      var front := definitions[..n];
      ReadOnlyIff(front, name);
      if definitions[n].name != name {
        forall i | 0 <= i < n
          ensures ReadOnlyAt(front, i, name) <==> ReadOnlyAt(definitions, i, name)
        {
          assert forall j :: 0 <= j < n ==> front[j] == definitions[j];
        }
      } else {
        forall i | 0 <= i < n
          ensures !ReadOnlyAt(definitions, i, name)
        {
          assert definitions[n].name == name;
        }
        assert IsWrite(definitions, name) <==> !ReadOnlyAt(definitions, n, name);
      }
    }
  }

  /** How calls behave: `C` calls, `L` local states (at the end, results), `S` the shared state. */
  datatype Tools<!C(!new), !L(!new), !S(!new)> = Tools(
    name: C -> string,
    length: C -> nat,
    start: C -> L,
    step: (C, nat, L, S) -> (L, S),
    isError: L -> bool,
    definitions: seq<ToolDefinition>)
  {
    predicate Writes(c: C) { IsWrite(definitions, name(c)) }

    /** Steps k.. of a call, run alone. */
    function RunFrom(c: C, k: nat, l: L, s: S): (L, S)
      decreases length(c) - k
    {
      if k >= length(c) then (l, s)
      else
        var (l', s') := step(c, k, l, s);
        RunFrom(c, k + 1, l', s')
    }

    function RunAlone(c: C, s: S): (L, S) {
      RunFrom(c, 0, start(c), s)
    }

    /** Read-only calls leave the shared state unchanged. */
    ghost predicate ReadOnlyCallsRead() {
      forall c, k: nat, l, s :: !Writes(c) && k < length(c) ==> step(c, k, l, s).1 == s
    }

    /** The reference: one call after the other, cut just after the first failing write. */
    function Sequential(calls: seq<C>, s: S): (seq<L>, S) {
      if calls == [] then ([], s)
      else
        var (l, s') := RunAlone(calls[0], s);
        if Writes(calls[0]) && isError(l) then ([l], s')
        else
          var (rest, end) := Sequential(calls[1..], s');
          ([l] + rest, end)
    }

    /** The shared states before each call that runs, and after the last. */
    function States(calls: seq<C>, s: S): seq<S> {
      if calls == [] then [s]
      else
        var (l, s') := RunAlone(calls[0], s);
        if Writes(calls[0]) && isError(l) then [s, s'] else [s] + States(calls[1..], s')
    }

    /** Each call runs alone from the state the one before it left, up to the first write that fails. */
    ghost predicate CutRun(calls: seq<C>, s: S, results: seq<L>, states: seq<S>) {
      && |results| <= |calls| && |states| == |results| + 1 && states[0] == s
      && (forall i :: 0 <= i < |results| ==> RunAlone(calls[i], states[i]) == (results[i], states[i + 1]))
      && (forall i :: 0 <= i < |results| - 1 ==> !(Writes(calls[i]) && isError(results[i])))
      && (|results| == |calls| ||
          (results != [] && Writes(calls[|results| - 1]) && isError(results[|results| - 1])))
    }

    /** The reference is that run. */
    lemma {:induction false} SequentialExact(calls: seq<C>, s: S)
      ensures CutRun(calls, s, Sequential(calls, s).0, States(calls, s))
      ensures Sequential(calls, s).1 == States(calls, s)[|States(calls, s)| - 1]
      decreases |calls|
    {
      if calls != [] {
        var (l, s') := RunAlone(calls[0], s);
        if !(Writes(calls[0]) && isError(l)) {
          var (rest, states) := (Sequential(calls[1..], s').0, States(calls[1..], s'));
          SequentialExact(calls[1..], s');
          CutRunFirst(calls, s, l, s', rest, states);
        }
      }
    }

    lemma CutRunFirst(calls: seq<C>, s: S, l: L, s': S, rest: seq<L>, states: seq<S>)
      requires calls != [] && RunAlone(calls[0], s) == (l, s') && !(Writes(calls[0]) && isError(l))
      requires CutRun(calls[1..], s', rest, states)
      ensures CutRun(calls, s, [l] + rest, [s] + states)
      ensures ([s] + states)[|states|] == states[|states| - 1]
    {
      var results, all := [l] + rest, [s] + states;
      forall i | 0 <= i < |results|
        ensures RunAlone(calls[i], all[i]) == (results[i], all[i + 1])
        ensures i < |results| - 1 ==> !(Writes(calls[i]) && isError(results[i]))
      {
        if i > 0 {
          assert calls[i] == calls[1..][i - 1] && results[i] == rest[i - 1] && all[i] == states[i - 1];
          assert all[i + 1] == states[i];
        } else {
          assert all[1] == states[0] == s';
        }
      }
      if |results| < |calls| {
        assert results[|results| - 1] == rest[|rest| - 1] && calls[|results| - 1] == calls[1..][|rest| - 1];
      }
    }

    /** There is no other such run. */
    lemma CutRunUnique(calls: seq<C>, s: S, r: seq<L>, states: seq<S>, r': seq<L>, states': seq<S>)
      requires CutRun(calls, s, r, states) && CutRun(calls, s, r', states')
      ensures r == r' && states == states'
    {
      var n := if |r| <= |r'| then |r| else |r'|;
      CutRunsAgree(calls, s, r, states, r', states', n);
      assert |r| == |r'|;
    }

    lemma {:induction false} CutRunsAgree(calls: seq<C>, s: S, r: seq<L>, states: seq<S>, r': seq<L>, states': seq<S>,
                                          n: nat)
      requires CutRun(calls, s, r, states) && CutRun(calls, s, r', states') && n <= |r| && n <= |r'|
      ensures states[n] == states'[n]
      ensures forall i :: 0 <= i < n ==> r[i] == r'[i] && states[i] == states'[i]
    {
      if n > 0 {
        CutRunsAgree(calls, s, r, states, r', states', n - 1);
        assert RunAlone(calls[n - 1], states[n - 1]) == (r[n - 1], states[n]);
        assert RunAlone(calls[n - 1], states'[n - 1]) == (r'[n - 1], states'[n]);
      }
    }

    function Results(calls: seq<C>, s: S): seq<L> {
      seq(|calls|, i requires 0 <= i < |calls| => RunAlone(calls[i], s).0)
    }

    lemma {:induction false} ReadOnlyKeeps(c: C, k: nat, l: L, s: S)
      requires ReadOnlyCallsRead() && !Writes(c)
      ensures RunFrom(c, k, l, s).1 == s
      decreases length(c) - k
    {
      if k < length(c) {
        var (l', s') := step(c, k, l, s);
        assert s' == s;
        ReadOnlyKeeps(c, k + 1, l', s);
      }
    }

    /** A read-only prefix of the sequential run: each call sees the same state. */
    lemma {:induction false} SequentialBatch(batch: seq<C>, rest: seq<C>, s: S)
      requires ReadOnlyCallsRead() && forall c :: c in batch ==> !Writes(c)
      ensures Sequential(batch + rest, s) == (Results(batch, s) + Sequential(rest, s).0, Sequential(rest, s).1)
      decreases |batch|
    {
      if batch == [] {
        assert batch + rest == rest;
        assert Results(batch, s) + Sequential(rest, s).0 == Sequential(rest, s).0;
      } else {
        assert (batch + rest)[0] == batch[0] && (batch + rest)[1..] == batch[1..] + rest;
        ReadOnlyKeeps(batch[0], 0, start(batch[0]), s);
        SequentialBatch(batch[1..], rest, s);
        var first := [RunAlone(batch[0], s).0];
        assert Results(batch, s) == first + Results(batch[1..], s);
        assert first + (Results(batch[1..], s) + Sequential(rest, s).0) == Results(batch, s) + Sequential(rest, s).0;
      }
    }

    /** Steps still to be taken by a batch. */
    function Remaining(batch: seq<C>, done: seq<nat>): nat
      requires |done| == |batch|
    {
      if batch == [] then 0
      else
        var n := |batch| - 1;
        Remaining(batch[..n], done[..n]) + (if done[n] < length(batch[n]) then length(batch[n]) - done[n] else 0)
    }

    lemma {:induction false} RemainingDrops(batch: seq<C>, done: seq<nat>, i: nat)
      requires |done| == |batch| && i < |batch| && done[i] < length(batch[i])
      ensures Remaining(batch, done[i := done[i] + 1]) < Remaining(batch, done)
    {
      var n := |batch| - 1;
      if i < n {
        assert done[i := done[i] + 1][..n] == done[..n][i := done[..n][i] + 1];
        RemainingDrops(batch[..n], done[..n], i);
      } else {
        assert done[i := done[i] + 1][..n] == done[..n];
      }
    }
  }

  /** Each call of the batch has taken `done[i]` steps towards what it does on its own. */
  ghost predicate Underway<C(!new), L(!new), S(!new)>(tools: Tools<C, L, S>, batch: seq<C>, done: seq<nat>,
                                                      locals: seq<L>, s: S)
  {
    && |locals| == |done| == |batch|
    && forall i :: 0 <= i < |batch| ==> tools.RunFrom(batch[i], done[i], locals[i], s) == tools.RunAlone(batch[i], s)
  }

  lemma Turn<C(!new), L(!new), S(!new)>(tools: Tools<C, L, S>, batch: seq<C>, done: seq<nat>, locals: seq<L>, s: S,
                                        i: nat)
    requires tools.ReadOnlyCallsRead() && Underway(tools, batch, done, locals, s)
    requires i < |batch| && done[i] < tools.length(batch[i]) && !tools.Writes(batch[i])
    ensures var (l, s') := tools.step(batch[i], done[i], locals[i], s);
      s' == s && Underway(tools, batch, done[i := done[i] + 1], locals[i := l], s)
  {
  }

  lemma AllDone<C(!new), L(!new), S(!new)>(tools: Tools<C, L, S>, batch: seq<C>, done: seq<nat>, locals: seq<L>, s: S)
    requires Underway(tools, batch, done, locals, s)
    requires forall i :: 0 <= i < |batch| ==> done[i] >= tools.length(batch[i])
    ensures locals == tools.Results(batch, s)
  {
  }

  /** Every call of the batch at its start. */
  method StartAll<C(!new), L(!new), S(!new)>(tools: Tools<C, L, S>, batch: seq<C>, ghost s: S)
    returns (locals: seq<L>, done: seq<nat>)
    ensures Underway(tools, batch, done, locals, s)
  {
    locals := seq(|batch|, i requires 0 <= i < |batch| => tools.start(batch[i]));
    done := seq(|batch|, i => 0);
  }

  /** No step of a call runs before a step of an earlier call unless only read-only calls lie between them. */
  ghost predicate CrossesNoWrite<C(!new), L(!new), S(!new)>(tools: Tools<C, L, S>, calls: seq<C>, trace: seq<nat>) {
    && (forall p :: 0 <= p < |trace| ==> trace[p] < |calls|)
    && forall p, q, w :: 0 <= p < q < |trace| && trace[q] <= w <= trace[p] && trace[q] < trace[p] ==>
      !tools.Writes(calls[w])
  }

  class Scheduler<C(!new), L(!new), S(!new)> {
    const tools: Tools<C, L, S>
    const calls: seq<C>
    var shared: S
    var results: seq<L>
    var batch: seq<C>
    /** Which call took each atomic step, in time order. */
    ghost var trace: seq<nat>

    constructor (tools: Tools<C, L, S>, calls: seq<C>, shared: S)
      ensures this.tools == tools && this.calls == calls && this.shared == shared
      ensures results == [] && batch == [] && trace == []
    {
      this.tools, this.calls, this.shared := tools, calls, shared;
      results, batch, trace := [], [], [];
    }

    /** Results and batch cover a prefix of the calls, and the trace so far concerns finished calls only. */
    ghost predicate Valid()
      reads this
    {
      && |results| + |batch| <= |calls|
      && batch == calls[|results|..|results| + |batch|]
      && (forall c :: c in batch ==> !tools.Writes(c))
      && CrossesNoWrite(tools, calls, trace)
      && (forall p :: 0 <= p < |trace| ==> trace[p] < |results|)
    }

    /** The trace respects the writes and stays within the results and the batch. */
    ghost predicate TraceOk()
      reads this
    {
      CrossesNoWrite(tools, calls, trace) && forall p :: 0 <= p < |trace| ==> trace[p] < |results| + |batch|
    }

    /** One atomic step of a batched call. */
    method TakeStep(i: nat, c: C, k: nat, before: L) returns (l: L)
      requires |results| <= i < |results| + |batch| <= |calls|
      requires batch == calls[|results|..|results| + |batch|] && forall c :: c in batch ==> !tools.Writes(c)
      requires TraceOk()
      modifies this`trace, this`shared
      ensures (l, shared) == tools.step(c, k, before, old(shared))
      ensures TraceOk()
    {
      TraceStep(i);
      var (l', s) := tools.step(c, k, before, shared);
      trace := trace + [i];
      l, shared := l', s;
    }

    /** The turn of one batched call that is not at its end. */
    method TakeTurn(done: seq<nat>, locals: seq<L>, i: nat) returns (after: seq<L>, next: seq<nat>)
      requires |results| + |batch| <= |calls|
      requires batch == calls[|results|..|results| + |batch|] && forall c :: c in batch ==> !tools.Writes(c)
      requires TraceOk() && tools.ReadOnlyCallsRead() && Underway(tools, batch, done, locals, shared)
      requires i < |batch| && done[i] < tools.length(batch[i])
      modifies this`trace, this`shared
      ensures shared == old(shared) && TraceOk() && Underway(tools, batch, next, after, shared)
      ensures tools.Remaining(batch, next) < tools.Remaining(batch, done)
    {
      Turn(tools, batch, done, locals, shared, i);
      tools.RemainingDrops(batch, done, i);
      var l := TakeStep(|results| + i, batch[i], done[i], locals[i]);
      after, next := locals[i := l], done[i := done[i] + 1];
    }

    /** The calls of the batch under every interleaving of their steps. */
    method RunBatch() returns (locals: seq<L>)
      requires Valid() && tools.ReadOnlyCallsRead()
      modifies this`trace, this`shared
      ensures shared == old(shared) && locals == tools.Results(batch, shared) && TraceOk()
    {
      var running := batch;
      var done: seq<nat>;
      locals, done := StartAll(tools, running, shared);
      while exists i :: 0 <= i < |running| && done[i] < tools.length(running[i])
        invariant Underway(tools, running, done, locals, shared) && shared == old(shared) && TraceOk()
        decreases tools.Remaining(running, done)
      {
        var i :| 0 <= i < |running| && done[i] < tools.length(running[i]);
        locals, done := TakeTurn(done, locals, i);
      }
      AllDone(tools, running, done, locals, shared);
    }

    /** `flush_readonly_batch`. */
    method Flush()
      requires Valid() && tools.ReadOnlyCallsRead()
      modifies this`results, this`batch, this`trace, this`shared
      ensures Valid() && batch == [] && shared == old(shared)
      ensures results == old(results) + tools.Results(old(batch), old(shared))
    {
      var locals := RunBatch();
      results := results + locals;
      batch := [];
    }

    /** A step of a batched call may follow any step so far. */
    lemma TraceStep(i: nat)
      requires |results| <= i < |results| + |batch| <= |calls|
      requires batch == calls[|results|..|results| + |batch|] && forall c :: c in batch ==> !tools.Writes(c)
      requires TraceOk()
      ensures CrossesNoWrite(tools, calls, trace + [i])
    {
      forall w | |results| <= w < |results| + |batch|
        ensures !tools.Writes(calls[w])
      {
        assert calls[w] == batch[w - |results|];
        assert batch[w - |results|] in batch;
      }
    }

    /** One call on its own, step by step. */
    method RunOne(c: C) returns (l: L)
      requires Valid() && batch == [] && |results| < |calls| && calls[|results|] == c
      modifies this`trace, this`shared
      ensures (l, shared) == tools.RunAlone(c, old(shared))
      ensures CrossesNoWrite(tools, calls, trace)
      ensures forall p :: 0 <= p < |trace| ==> trace[p] <= |results|
    {
      l := tools.start(c);
      var k := 0;
      while k < tools.length(c)
        invariant tools.RunFrom(c, k, l, shared) == tools.RunAlone(c, old(shared))
        invariant CrossesNoWrite(tools, calls, trace)
        invariant forall p :: 0 <= p < |trace| ==> trace[p] <= |results|
        decreases tools.length(c) - k
      {
        var (l', s) := tools.step(c, k, l, shared);
        trace := trace + [|results|];
        l, shared := l', s;
        k := k + 1;
      }
    }

    /** The write branch of the loop: flush, run the call alone, and say whether it failed. */
    method Write(c: C) returns (failed: bool)
      requires Valid() && tools.ReadOnlyCallsRead() && tools.Writes(c)
      requires |results| + |batch| < |calls| && calls[|results| + |batch|] == c
      modifies this`results, this`batch, this`trace, this`shared
      ensures Valid() && batch == [] && |results| == old(|results| + |batch|) + 1
      ensures old(Ahead(results, shared)) == if failed then (results, shared) else Ahead(results, shared)
    {
      FlushAhead(results, batch, shared);
      Flush();
      ghost var before := shared;
      var l := RunOne(c);
      WriteAhead(results, l, before, shared);
      results := results + [l];
      failed := tools.isError(l);
    }

    /**
      `_run_scheduled_tool_calls`.  Whatever the interleaving inside each batch, the results in call
      order and the final shared state are those of the sequential run cut after the first failing
      write, no call crosses a write, and no call beyond the cut takes a step.
     */
    method Run()
      requires results == [] && batch == [] && trace == []
      requires tools.ReadOnlyCallsRead()
      modifies this`results, this`batch, this`trace, this`shared
      ensures (results, shared) == tools.Sequential(calls, old(shared))
      ensures CrossesNoWrite(tools, calls, trace)
      ensures forall p :: 0 <= p < |trace| ==> trace[p] < |results|
    {
      var i := 0;
      ghost var cut := false;
      AheadOfNothing(shared);
      while i < |calls|
        invariant i <= |calls| && Valid() && |results| + |batch| == i
        invariant !cut && tools.Sequential(calls, old(shared)) == Ahead(results, shared)
      {
        var c := calls[i];
        if !tools.Writes(c) {
          BatchGrows(results, batch);
          batch := batch + [c];
        } else {
          var failed := Write(c);
          if failed {
            cut := true;
            break;
          }
        }
        i := i + 1;
      }
      FlushAhead(results, batch, shared);
      Flush();
      if !cut {
        AheadOfAll(results, shared);
      }
    }

    lemma BatchGrows(results: seq<L>, batch: seq<C>)
      requires |results| + |batch| < |calls| && batch == calls[|results|..|results| + |batch|]
      ensures batch + [calls[|results| + |batch|]] == calls[|results|..|results| + |batch| + 1]
    {
    }

    /** The sequential run resumed after the results so far. */
    ghost function Ahead(results: seq<L>, s: S): (seq<L>, S)
      requires |results| <= |calls|
    {
      var (rest, end) := tools.Sequential(calls[|results|..], s);
      (results + rest, end)
    }

    lemma AheadOfNothing(s: S)
      ensures Ahead([], s) == tools.Sequential(calls, s)
    {
      assert calls[0..] == calls;
      assert [] + tools.Sequential(calls, s).0 == tools.Sequential(calls, s).0;
    }

    lemma AheadOfAll(results: seq<L>, s: S)
      requires |results| == |calls|
      ensures Ahead(results, s) == (results, s)
    {
      assert calls[|results|..] == [];
      assert results + [] == results;
    }

    /** Flushing the batch brings the results up to where the sequential run would be. */
    lemma FlushAhead(results: seq<L>, batch: seq<C>, s: S)
      requires tools.ReadOnlyCallsRead() && forall c :: c in batch ==> !tools.Writes(c)
      requires |results| + |batch| <= |calls| && batch == calls[|results|..|results| + |batch|]
      ensures Ahead(results, s) == Ahead(results + tools.Results(batch, s), s)
      ensures batch == [] ==> results + tools.Results(batch, s) == results
    {
      var rest := calls[|results| + |batch|..];
      assert calls[|results|..] == batch + rest;
      tools.SequentialBatch(batch, rest, s);
      assert results + (tools.Results(batch, s) + tools.Sequential(rest, s).0)
          == (results + tools.Results(batch, s)) + tools.Sequential(rest, s).0;
    }

    lemma WriteAhead(results: seq<L>, l: L, s: S, next: S)
      requires |results| < |calls| && tools.Writes(calls[|results|])
      requires (l, next) == tools.RunAlone(calls[|results|], s)
      ensures Ahead(results, s) == if tools.isError(l) then (results + [l], next) else Ahead(results + [l], next)
    {
      var rest := calls[|results|..];
      assert rest[1..] == calls[|results| + 1..];
      assert results + ([l] + tools.Sequential(rest[1..], next).0)
          == (results + [l]) + tools.Sequential(rest[1..], next).0;
    }
  }
}
