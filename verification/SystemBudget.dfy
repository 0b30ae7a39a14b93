/**
  The budget for dynamic system blocks: a greedy pass in order of priority that skips what does not fit.
 */
module SystemBudget {
  import opened Wrappers

  datatype Block = Block(id: string, dynamic: bool, priority: int, tokenCount: Option<nat>, chars: nat)

  /** The count the block carries, or one token for every full four characters. */
  function Tokens(b: Block): (t: nat)
    ensures b.tokenCount.Some? ==> t == b.tokenCount.value
    ensures b.tokenCount.None? ==> 4 * t <= b.chars < 4 * (t + 1)
  {
    if b.tokenCount.Some? then b.tokenCount.value else b.chars / 4
  }

  // ---------------------------------------------------------------- the stable order

  /** Higher priority first, and among equals the earlier block. */
  predicate Outranks(bs: seq<Block>, i: nat, j: nat)
    requires i < |bs| && j < |bs|
  {
    bs[i].priority > bs[j].priority || (bs[i].priority == bs[j].priority && i < j)
  }

  /** The dynamic ones among the first n blocks, ranked. */
  ghost predicate Ranks(bs: seq<Block>, order: seq<nat>, n: nat)
    requires n <= |bs|
  {
    && (forall k :: 0 <= k < |order| ==> order[k] < n && bs[order[k]].dynamic)
    && (forall i :: 0 <= i < n && bs[i].dynamic ==> i in order)
    && (forall k, l :: 0 <= k < l < |order| ==> Outranks(bs, order[k], order[l]))
  }

  /** Enters the next dynamic block behind every block of at least its priority. */
  method Insert(bs: seq<Block>, order: seq<nat>, n: nat) returns (r: seq<nat>)
    requires n < |bs| && Ranks(bs, order, n) && bs[n].dynamic
    ensures Ranks(bs, r, n + 1)
  {
    var k := 0;
    while k < |order| && bs[order[k]].priority >= bs[n].priority
      invariant k <= |order|
      invariant forall l :: 0 <= l < k ==> bs[order[l]].priority >= bs[n].priority
    {
      k := k + 1;
    }
    r := order[..k] + [n] + order[k..];
    Inserted(bs, order, n, k, r);
  }

  lemma Inserted(bs: seq<Block>, order: seq<nat>, n: nat, k: nat, r: seq<nat>)
    requires n < |bs| && Ranks(bs, order, n) && bs[n].dynamic && k <= |order|
    requires forall l :: 0 <= l < k ==> bs[order[l]].priority >= bs[n].priority
    requires k < |order| ==> bs[order[k]].priority < bs[n].priority
    requires r == order[..k] + [n] + order[k..]
    ensures Ranks(bs, r, n + 1)
  {
    assert order == order[..k] + order[k..];
    assert forall i :: i in r <==> i in order || i == n;
    forall x | 0 <= x < |r|
      ensures r[x] < n + 1 && bs[r[x]].dynamic
    {
      assert r[x] in r && (r[x] in order || r[x] == n);
    }
    forall x, y | 0 <= x < y < |r|
      ensures Outranks(bs, r[x], r[y])
    {
      InsertedPair(bs, order, n, k, r, x, y);
    }
  }

  lemma InsertedPair(bs: seq<Block>, order: seq<nat>, n: nat, k: nat, r: seq<nat>, x: nat, y: nat)
    requires n < |bs| && Ranks(bs, order, n) && k <= |order|
    requires forall l :: 0 <= l < k ==> bs[order[l]].priority >= bs[n].priority
    requires k < |order| ==> bs[order[k]].priority < bs[n].priority
    requires r == order[..k] + [n] + order[k..] && x < y < |r|
    ensures r[x] < |bs| && r[y] < |bs| && Outranks(bs, r[x], r[y])
  {
    var i, j := if x <= k then x else x - 1, if y <= k then y else y - 1;
    if x != k && y != k {
      assert r[x] == order[i] && r[y] == order[j] && Outranks(bs, order[i], order[j]);
    } else if x == k {
      assert r[x] == n && r[y] == order[j];
      assert j > k ==> Outranks(bs, order[k], order[j]);
    } else {
      assert r[y] == n && r[x] == order[x];
    }
  }

  /** The ranked dynamic blocks. */
  method Rank(bs: seq<Block>) returns (order: seq<nat>)
    ensures Ranks(bs, order, |bs|)
  {
    order := [];
    for n := 0 to |bs|
      invariant Ranks(bs, order, n)
    {
      if bs[n].dynamic {
        order := Insert(bs, order, n);
      }
    }
  }

  // ---------------------------------------------------------------- the greedy pass

  /** What the first k blocks of the order use of the budget. */
  function Used(bs: seq<Block>, order: seq<nat>, budget: int, k: nat): nat
    requires k <= |order| && forall l :: 0 <= l < |order| ==> order[l] < |bs|
  {
    if k == 0 then 0
    else
      var before := Used(bs, order, budget, k - 1);
      if before + Tokens(bs[order[k - 1]]) > budget then before else before + Tokens(bs[order[k - 1]])
  }

  /** Whether the k-th block of the order fits beside what is retained of those that outrank it. */
  predicate Fits(bs: seq<Block>, order: seq<nat>, budget: int, k: nat)
    requires k < |order| && forall l :: 0 <= l < |order| ==> order[l] < |bs|
  {
    Used(bs, order, budget, k) + Tokens(bs[order[k]]) <= budget
  }

  function Retained(bs: seq<Block>, order: seq<nat>, budget: int, k: nat): set<nat>
    requires k <= |order| && forall l :: 0 <= l < |order| ==> order[l] < |bs|
  {
    if k == 0 then {}
    else Retained(bs, order, budget, k - 1) + (if Fits(bs, order, budget, k - 1) then {order[k - 1]} else {})
  }

  function Trimmed(bs: seq<Block>, order: seq<nat>, budget: int, k: nat): seq<Block>
    requires k <= |order| && forall l :: 0 <= l < |order| ==> order[l] < |bs|
  {
    if k == 0 then []
    else Trimmed(bs, order, budget, k - 1) + (if Fits(bs, order, budget, k - 1) then [] else [bs[order[k - 1]]])
  }

  /** The first n blocks without the dynamic ones that were not retained, in their own order. */
  function Keep(bs: seq<Block>, kept: set<nat>, n: nat): seq<Block>
    requires n <= |bs|
  {
    if n == 0 then []
    else Keep(bs, kept, n - 1) + (if !bs[n - 1].dynamic || n - 1 in kept then [bs[n - 1]] else [])
  }

  /** `_apply_system_block_budget`. */
  method ApplySystemBlockBudget(bs: seq<Block>, budget: Option<int>)
    returns (blocks: seq<Block>, trimmed: seq<Block>, order: seq<nat>)
    ensures Ranks(bs, order, |bs|)
    ensures budget.None? || budget.value <= 0 ==> blocks == bs && trimmed == []
    ensures budget.Some? && budget.value > 0 ==>
      && blocks == Keep(bs, Retained(bs, order, budget.value, |order|), |bs|)
      && trimmed == Trimmed(bs, order, budget.value, |order|)
  {
    order := Rank(bs);
    if budget.None? || budget.value <= 0 {
      return bs, [], order;
    }
    var kept: set<nat> := {};
    var used := 0;
    trimmed := [];
    for k := 0 to |order|
      invariant used == Used(bs, order, budget.value, k)
      invariant kept == Retained(bs, order, budget.value, k)
      invariant trimmed == Trimmed(bs, order, budget.value, k)
    {
      var b := bs[order[k]];
      if used + Tokens(b) > budget.value {
        trimmed := trimmed + [b];
        continue;
      }
      kept := kept + {order[k]};
      used := used + Tokens(b);
    }
    blocks := [];
    for n := 0 to |bs|
      invariant blocks == Keep(bs, kept, n)
    {
      if !bs[n].dynamic || n in kept {
        blocks := blocks + [bs[n]];
      }
    }
  }

  // ---------------------------------------------------------------- what the pass guarantees

  /** Tokens of the dynamic blocks. */
  function Load(bs: seq<Block>): nat {
    if bs == [] then 0
    else
      var n := |bs| - 1;
      Load(bs[..n]) + (if bs[n].dynamic then Tokens(bs[n]) else 0)
  }

  /** Tokens of the first n blocks at the given positions. */
  function Weight(bs: seq<Block>, at: set<nat>, n: nat): nat
    requires n <= |bs|
  {
    if n == 0 then 0 else Weight(bs, at, n - 1) + (if n - 1 in at then Tokens(bs[n - 1]) else 0)
  }

  lemma {:induction false} WeightAdd(bs: seq<Block>, at: set<nat>, x: nat, n: nat)
    requires n <= |bs| && x !in at
    ensures Weight(bs, at + {x}, n) == Weight(bs, at, n) + if x < n then Tokens(bs[x]) else 0
  {
    if n > 0 {
      WeightAdd(bs, at, x, n - 1);
    }
  }

  lemma {:induction false} KeepLoad(bs: seq<Block>, kept: set<nat>, n: nat)
    requires n <= |bs| && forall i :: i in kept && i < |bs| ==> bs[i].dynamic
    ensures Load(Keep(bs, kept, n)) == Weight(bs, kept, n)
  {
    if n > 0 {
      KeepLoad(bs, kept, n - 1);
      var before, b := Keep(bs, kept, n - 1), bs[n - 1];
      assert (before + [b])[..|before|] == before;
      assert before + [] == before;
    }
  }

  /** The retained positions weigh what the pass used. */
  lemma {:induction false} RetainedWeight(bs: seq<Block>, order: seq<nat>, budget: int, k: nat)
    requires Ranks(bs, order, |bs|) && k <= |order|
    ensures Weight(bs, Retained(bs, order, budget, k), |bs|) == Used(bs, order, budget, k)
    ensures forall i :: i in Retained(bs, order, budget, k) ==> i in order[..k]
    ensures budget > 0 ==> Used(bs, order, budget, k) <= budget
  {
    if k == 0 {
      NoWeight(bs, |bs|);
    } else {
      RetainedWeight(bs, order, budget, k - 1);
      var before := Retained(bs, order, budget, k - 1);
      assert order[..k] == order[..k - 1] + [order[k - 1]];
      if Fits(bs, order, budget, k - 1) {
        NotBefore(bs, order, k - 1);
        WeightAdd(bs, before, order[k - 1], |bs|);
      } else {
        assert before + {} == before;
      }
    }
  }

  lemma {:induction false} NoWeight(bs: seq<Block>, n: nat)
    requires n <= |bs|
    ensures Weight(bs, {}, n) == 0
  {
    if n > 0 {
      NoWeight(bs, n - 1);
    }
  }

  lemma NotBefore(bs: seq<Block>, order: seq<nat>, k: nat)
    requires Ranks(bs, order, |bs|) && k < |order|
    ensures order[k] !in order[..k]
  {
    forall l | 0 <= l < k
      ensures order[l] != order[k]
    {
      assert Outranks(bs, order[l], order[k]);
    }
  }

  /** The retained dynamic blocks stay within the budget. */
  lemma LoadWithinBudget(bs: seq<Block>, order: seq<nat>, budget: int)
    requires Ranks(bs, order, |bs|) && budget > 0
    ensures Load(Keep(bs, Retained(bs, order, budget, |order|), |bs|)) <= budget
  {
    var kept := Retained(bs, order, budget, |order|);
    RetainedWeight(bs, order, budget, |order|);
    forall i | i in kept && i < |bs|
      ensures bs[i].dynamic
    {
      var k :| 0 <= k < |order| && order[..|order|][k] == i;
      assert order[k] == i;
    }
    KeepLoad(bs, kept, |bs|);
  }

  // ---------------------------------------------------------------- the pass is greedy

  /** The next block of the order does not change whether an earlier one is retained. */
  lemma RetainedNext(bs: seq<Block>, order: seq<nat>, budget: int, k: nat, l: nat)
    requires Ranks(bs, order, |bs|) && l < k < |order|
    ensures order[l] in Retained(bs, order, budget, k + 1) <==> order[l] in Retained(bs, order, budget, k)
  {
    assert Outranks(bs, order[l], order[k]);
  }

  lemma {:induction false} RetainedStays(bs: seq<Block>, order: seq<nat>, budget: int, k: nat, n: nat, l: nat)
    requires Ranks(bs, order, |bs|) && l < k <= n <= |order|
    ensures order[l] in Retained(bs, order, budget, n) <==> order[l] in Retained(bs, order, budget, k)
  {
    if k < n {
      RetainedStays(bs, order, budget, k, n - 1, l);
      RetainedNext(bs, order, budget, n - 1, l);
    }
  }

  lemma KeptWhenFits(bs: seq<Block>, order: seq<nat>, budget: int, k: nat)
    requires Ranks(bs, order, |bs|) && k < |order|
    ensures order[k] in Retained(bs, order, budget, |order|) <==> Fits(bs, order, budget, k)
  {
    RetainedStays(bs, order, budget, k + 1, |order|, k);
    RetainedWeight(bs, order, budget, k);
    NotBefore(bs, order, k);
  }

  /** The retained blocks that outrank the k-th. */
  function Outranking(order: seq<nat>, kept: set<nat>, k: nat): set<nat>
    requires k <= |order|
  {
    set i | i in kept && i in order[..k]
  }

  lemma OutrankingRetained(bs: seq<Block>, order: seq<nat>, budget: int, k: nat)
    requires Ranks(bs, order, |bs|) && k <= |order|
    ensures Outranking(order, Retained(bs, order, budget, |order|), k) == Retained(bs, order, budget, k)
  {
    RetainedWeight(bs, order, budget, k);
    forall i | i in order[..k]
      ensures i in Retained(bs, order, budget, |order|) <==> i in Retained(bs, order, budget, k)
    {
      var l :| 0 <= l < k && order[..k][l] == i;
      RetainedStays(bs, order, budget, k, |order|, l);
    }
  }

  /** A block is retained exactly when it fits beside the retained blocks that outrank it. */
  lemma GreedyByRank(bs: seq<Block>, order: seq<nat>, budget: int, k: nat)
    requires Ranks(bs, order, |bs|) && k < |order|
    ensures var kept := Retained(bs, order, budget, |order|);
      order[k] in kept <==> Weight(bs, Outranking(order, kept, k), |bs|) + Tokens(bs[order[k]]) <= budget
  {
    KeptWhenFits(bs, order, budget, k);
    OutrankingRetained(bs, order, budget, k);
    RetainedWeight(bs, order, budget, k);
  }

  /** Increasing positions. */
  ghost predicate Rising(at: seq<nat>) { forall x, y :: 0 <= x < y < |at| ==> at[x] < at[y] }

  lemma RisingMore(at: seq<nat>, n: nat)
    requires Rising(at) && forall i :: i in at ==> i < n
    ensures Rising(at + [n]) && forall i :: i in at + [n] <==> i in at || i == n
  {
    assert forall x :: 0 <= x < |at| ==> at[x] in at;
  }

  /** What is left: the static blocks and the retained ones, in their own order. */
  lemma {:induction false} KeepPositions(bs: seq<Block>, kept: set<nat>, n: nat) returns (at: seq<nat>)
    requires n <= |bs|
    ensures Rising(at) && |at| == |Keep(bs, kept, n)|
    ensures forall i :: i in at <==> 0 <= i < n && (!bs[i].dynamic || i in kept)
    ensures forall x :: 0 <= x < |at| ==> at[x] < |bs| && Keep(bs, kept, n)[x] == bs[at[x]]
  {
    at := [];
    if n > 0 {
      at := KeepPositions(bs, kept, n - 1);
      if !bs[n - 1].dynamic || n - 1 in kept {
        RisingMore(at, n - 1);
        at := at + [n - 1];
      }
    }
  }

  /** What is reported as trimmed: the dynamic blocks that were not retained, in order of rank. */
  lemma TrimmedPositions(bs: seq<Block>, order: seq<nat>, budget: int) returns (at: seq<nat>)
    requires Ranks(bs, order, |bs|)
    ensures Rising(at) && |at| == |Trimmed(bs, order, budget, |order|)|
    ensures forall k :: k in at <==> 0 <= k < |order| && order[k] !in Retained(bs, order, budget, |order|)
    ensures forall x :: 0 <= x < |at| ==>
      at[x] < |order| && Trimmed(bs, order, budget, |order|)[x] == bs[order[at[x]]]
  {
    forall k: nat | k < |order|
      ensures order[k] in Retained(bs, order, budget, |order|) <==> Fits(bs, order, budget, k)
    {
      KeptWhenFits(bs, order, budget, k);
    }
    at := UnfitPositions(bs, order, budget, |order|);
  }

  lemma {:induction false} UnfitPositions(bs: seq<Block>, order: seq<nat>, budget: int, n: nat) returns (at: seq<nat>)
    requires n <= |order| && forall l :: 0 <= l < |order| ==> order[l] < |bs|
    ensures Rising(at) && |at| == |Trimmed(bs, order, budget, n)|
    ensures forall k :: k in at <==> 0 <= k < n && !Fits(bs, order, budget, k)
    ensures forall x :: 0 <= x < |at| ==> at[x] < n && Trimmed(bs, order, budget, n)[x] == bs[order[at[x]]]
  {
    at := [];
    if n > 0 {
      at := UnfitPositions(bs, order, budget, n - 1);
      if !Fits(bs, order, budget, n - 1) {
        RisingMore(at, n - 1);
        at := at + [n - 1];
      }
    }
  }

  function AllDynamic(bs: seq<Block>): set<nat> {
    set i | 0 <= i < |bs| && bs[i].dynamic
  }

  lemma {:induction false} WeightMonotone(bs: seq<Block>, a: set<nat>, b: set<nat>, n: nat)
    requires n <= |bs| && a <= b
    ensures Weight(bs, a, n) <= Weight(bs, b, n)
  {
    if n > 0 {
      WeightMonotone(bs, a, b, n - 1);
    }
  }

  lemma {:induction false} LoadIsWeight(bs: seq<Block>, n: nat)
    requires n <= |bs|
    ensures Load(bs[..n]) == Weight(bs, AllDynamic(bs), n)
  {
    if n > 0 {
      LoadIsWeight(bs, n - 1);
      assert bs[..n][..n - 1] == bs[..n - 1];
    }
  }

  /** When the dynamic blocks fit together, each fits in its turn. */
  lemma FitsInTurn(bs: seq<Block>, order: seq<nat>, budget: int, k: nat)
    requires Ranks(bs, order, |bs|) && budget > 0 && Load(bs) <= budget && k < |order|
    ensures Fits(bs, order, budget, k)
  {
    var before, x := Retained(bs, order, budget, k), order[k];
    RetainedWeight(bs, order, budget, k);
    NotBefore(bs, order, k);
    WeightAdd(bs, before, x, |bs|);
    forall i | i in before + {x}
      ensures i in AllDynamic(bs)
    {
      assert i == x || i in order[..k];
    }
    WeightMonotone(bs, before + {x}, AllDynamic(bs), |bs|);
    LoadIsWeight(bs, |bs|);
    assert bs[..|bs|] == bs;
  }

  /** When everything fits, nothing is trimmed. */
  lemma {:induction false} AllFits(bs: seq<Block>, order: seq<nat>, budget: int, k: nat)
    requires Ranks(bs, order, |bs|) && budget > 0 && Load(bs) <= budget && k <= |order|
    ensures forall l :: 0 <= l < k ==> order[l] in Retained(bs, order, budget, k)
    ensures Trimmed(bs, order, budget, k) == []
  {
    if k > 0 {
      AllFits(bs, order, budget, k - 1);
      FitsInTurn(bs, order, budget, k - 1);
    }
  }

  lemma {:induction false} KeepAll(bs: seq<Block>, kept: set<nat>, n: nat)
    requires n <= |bs| && forall i :: 0 <= i < n && bs[i].dynamic ==> i in kept
    ensures Keep(bs, kept, n) == bs[..n]
  {
    if n > 0 {
      KeepAll(bs, kept, n - 1);
    }
  }

  /** A second pass with the same budget trims nothing. */
  lemma SecondPassTrimsNothing(bs: seq<Block>, order: seq<nat>, budget: int, order': seq<nat>)
    requires Ranks(bs, order, |bs|) && budget > 0
    requires var once := Keep(bs, Retained(bs, order, budget, |order|), |bs|);
      Ranks(once, order', |once|)
    ensures var once := Keep(bs, Retained(bs, order, budget, |order|), |bs|);
      && Keep(once, Retained(once, order', budget, |order'|), |once|) == once
      && Trimmed(once, order', budget, |order'|) == []
  {
    var once := Keep(bs, Retained(bs, order, budget, |order|), |bs|);
    LoadWithinBudget(bs, order, budget);
    AllFits(once, order', budget, |order'|);
    KeepAll(once, Retained(once, order', budget, |order'|), |once|);
  }
}
