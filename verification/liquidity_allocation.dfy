/** The allocation planner (`calculateBalanceAllocation`): pools are taken in
    descending weight order and each gets a weight-scaled amount of both of its
    tokens, capped at a graduated share of what is left of the snapshot. */
module LiquidityAllocation {
  import opened LiquidityCatalog
  import opened SeqUtil
  import opened Wrappers

  /** One planned deposit: a pool and the amount of each of its tokens. */
  datatype Allocation = Allocation(pool: Pool, amount0: nat, amount1: nat)

  // ----- the stable descending-weight sort -----

  /** Places `p` after every element of `sorted` that is strictly heavier and
      before the rest, so earlier inputs stay before later ones of equal weight. */
  function InsertByWeight(p: Pool, sorted: seq<Pool>): (r: seq<Pool>)
    ensures |r| == |sorted| + 1
    ensures multiset(r) == multiset(sorted) + multiset{p}
  {
    if sorted == [] then [p]
    else if sorted[0].weight > p.weight then
      assert sorted == [sorted[0]] + sorted[1..];
      [sorted[0]] + InsertByWeight(p, sorted[1..])
    else [p] + sorted
  }

  /** `[...pools].sort((a, b) => b.weight - a.weight)`; the sort is stable. */
  function SortByWeight(pools: seq<Pool>): (r: seq<Pool>)
    ensures multiset(r) == multiset(pools)
  {
    if pools == [] then []
    else
      assert pools == [pools[0]] + pools[1..];
      InsertByWeight(pools[0], SortByWeight(pools[1..]))
  }

  ghost predicate Descending(s: seq<Pool>) {
    forall i, j :: 0 <= i < j < |s| ==> s[i].weight >= s[j].weight
  }

  /** The pools of weight `w`, in order. */
  function OfWeight(s: seq<Pool>, w: nat): seq<Pool> {
    Filter(s, (p: Pool) => p.weight == w)
  }

  lemma {:induction false} InsertKeepsDescending(p: Pool, sorted: seq<Pool>)
    requires Descending(sorted)
    ensures Descending(InsertByWeight(p, sorted))
    decreases |sorted|
  {
    if sorted != [] && sorted[0].weight > p.weight {
      InsertKeepsDescending(p, sorted[1..]);
      var r := InsertByWeight(p, sorted);
      var t := InsertByWeight(p, sorted[1..]);
      assert r == [sorted[0]] + t;
      forall k | 0 <= k < |t| ensures sorted[0].weight >= t[k].weight {
        assert t[k] in multiset(sorted[1..]) + multiset{p};
        if t[k] in multiset(sorted[1..]) {
          var m :| 0 <= m < |sorted[1..]| && sorted[1..][m] == t[k];
          assert sorted[m + 1] == t[k];
        }
      }
    }
  }

  /** The filter by weight of a one-element prefix. */
  lemma OfWeightCons(q: Pool, s: seq<Pool>, w: nat)
    ensures OfWeight([q] + s, w) == (if q.weight == w then [q] else []) + OfWeight(s, w)
  {
    var pw := (x: Pool) => x.weight == w;
    FilterAppend([q], s, pw);
    FilterSnoc([], q, pw);
    assert [] + [q] == [q];
  }

  lemma {:induction false} InsertOfWeight(p: Pool, sorted: seq<Pool>, w: nat)
    ensures OfWeight(InsertByWeight(p, sorted), w)
         == (if p.weight == w then [p] else []) + OfWeight(sorted, w)
    decreases |sorted|
  {
    if sorted == [] {
      OfWeightCons(p, [], w);
      assert [p] + [] == [p];
    } else if sorted[0].weight > p.weight {
      var s0, rest := sorted[0], sorted[1..];
      var kp: seq<Pool> := if p.weight == w then [p] else [];
      var ks: seq<Pool> := if s0.weight == w then [s0] else [];
      assert sorted == [s0] + rest;
      assert InsertByWeight(p, sorted) == [s0] + InsertByWeight(p, rest);
      InsertOfWeight(p, rest, w);
      OfWeightCons(s0, InsertByWeight(p, rest), w);
      OfWeightCons(s0, rest, w);
      // p and s0 have different weights, so at most one of them is kept
      assert kp == [] || ks == [];
      assert ks + (kp + OfWeight(rest, w)) == kp + (ks + OfWeight(rest, w));
    } else {
      OfWeightCons(p, sorted, w);
    }
  }

  /** The sort yields descending weights, the same pools, and for every weight
      the pools of that weight in their input order (stability). */
  lemma {:induction false} SortByWeightCorrect(pools: seq<Pool>)
    ensures Descending(SortByWeight(pools))
    ensures forall w: nat :: OfWeight(SortByWeight(pools), w) == OfWeight(pools, w)
    decreases |pools|
  {
    if pools != [] {
      var rest := SortByWeight(pools[1..]);
      SortByWeightCorrect(pools[1..]);
      InsertKeepsDescending(pools[0], rest);
      assert SortByWeight(pools) == InsertByWeight(pools[0], rest);
      assert [pools[0]] + pools[1..] == pools;
      forall w: nat ensures OfWeight(SortByWeight(pools), w) == OfWeight(pools, w) {
        InsertOfWeight(pools[0], rest, w);
        OfWeightCons(pools[0], pools[1..], w);
      }
    }
  }

  // ----- amounts -----

  /** `Math.floor(weightMultiplier * 100)`: 1.3, 1.1 or 1.0 as a percentage. */
  function WeightPercent(weight: nat): nat {
    if weight >= 3 then 130 else if weight >= 2 then 110 else 100
  }

  /** `Math.floor(allocationRatio * 100)` with `remaining` pools left, this one
      included: 80 for the last; 0.4 + 0.2 / remaining, i.e. 50 and 46, when two
      or three are left; 30 otherwise. */
  function RatioPercent(remaining: nat): (pct: nat)
    requires remaining >= 1
    ensures pct <= 80
  {
    if remaining == 1 then 80
    else if remaining == 2 then 50
    else if remaining == 3 then 46
    else 30
  }

  /** The weight-scaled candidate, `base.mul(WeightPercent).div(100)`. */
  function Scaled(base: nat, weight: nat): nat {
    base * WeightPercent(weight) / 100
  }

  lemma PercentOfIsAtMost(a: nat, pct: nat)
    requires pct <= 100
    ensures a * pct / 100 <= a
  {
    assert a * pct <= a * 100;
  }

  /** The cap, `available.mul(RatioPercent).div(100)`: never more than is available. */
  function Cap(available: nat, remaining: nat): (c: nat)
    requires remaining >= 1
    ensures c <= available
  {
    PercentOfIsAtMost(available, RatioPercent(remaining));
    available * RatioPercent(remaining) / 100
  }

  /** `if (amount.gt(cap)) amount = cap`. */
  function Lowered(amount: nat, cap: nat): (r: nat)
    ensures r <= amount && r <= cap
    ensures r == amount || r == cap
  {
    if amount > cap then cap else amount
  }

  // ----- the running per-token total -----

  /** What an allocation takes of token t; both legs are counted, as the
      source adds amount0 to token0's total and amount1 to token1's. */
  function AmountOf(a: Allocation, t: Token): nat {
    (if a.pool.token0 == t then a.amount0 else 0) + (if a.pool.token1 == t then a.amount1 else 0)
  }

  /** `usedBalances[t]`: the total of token t over the committed allocations. */
  function Used(acc: seq<Allocation>, t: Token): nat {
    Sum(acc, (a: Allocation) => AmountOf(a, t))
  }

  lemma UsedSnoc(acc: seq<Allocation>, a: Allocation, t: Token)
    ensures Used(acc + [a], t) == Used(acc, t) + AmountOf(a, t)
  {
    SumSnoc(acc, a, (x: Allocation) => AmountOf(x, t));
  }

  /** No token is used beyond its snapshot balance. */
  ghost predicate Within(acc: seq<Allocation>, balances: Balances) {
    forall t :: t in balances ==> Used(acc, t) <= balances[t]
  }

  /** Every pool names two different tokens, both present in the snapshot; the
      pools handed to the planner come from the catalog through the
      affordability filter, so they always are. */
  ghost predicate Plannable(pools: seq<Pool>, balances: Balances) {
    forall i :: 0 <= i < |pools| ==>
      DistinctTokens(pools[i]) && pools[i].token0 in balances && pools[i].token1 in balances
  }

  lemma PlannableReordered(pools: seq<Pool>, other: seq<Pool>, balances: Balances)
    requires Plannable(pools, balances) && multiset(other) == multiset(pools)
    ensures Plannable(other, balances)
  {
    forall i | 0 <= i < |other|
      ensures DistinctTokens(other[i]) && other[i].token0 in balances && other[i].token1 in balances
    {
      assert other[i] in multiset(pools);
      var j :| 0 <= j < |pools| && pools[j] == other[i];
    }
  }

  lemma PlannableSuffix(pools: seq<Pool>, i: nat, balances: Balances)
    requires Plannable(pools, balances) && i <= |pools|
    ensures Plannable(pools[i..], balances)
  {
    forall k | 0 <= k < |pools| - i
      ensures DistinctTokens(pools[i..][k]) && pools[i..][k].token0 in balances && pools[i..][k].token1 in balances
    {
      assert pools[i..][k] == pools[i + k];
    }
  }

  /** The loop body for one pool, given how many pools are left (this one
      included) and what remains of each of its tokens: the weight-scaled base
      amounts lowered to the cap, committed only if both fit what remains. */
  function Offer(p: Pool, remaining: nat, available0: nat, available1: nat): (r: Option<Allocation>)
    requires remaining >= 1
    ensures r.Some? ==> r.value.pool == p && r.value.amount0 <= available0 && r.value.amount1 <= available1
  {
    var amount0 := Lowered(Scaled(p.base0, p.weight), Cap(available0, remaining));
    var amount1 := Lowered(Scaled(p.base1, p.weight), Cap(available1, remaining));
    if available0 >= amount0 && available1 >= amount1 then Some(Allocation(p, amount0, amount1))
    else None
  }

  /** The balance check never fails: a capped amount is at most what remains,
      so every pool offered to the loop body gets an allocation, of at most the
      weight-scaled amount and at most the graduated share of what remains. */
  lemma OfferAlwaysCommits(p: Pool, remaining: nat, available0: nat, available1: nat)
    requires remaining >= 1
    ensures Offer(p, remaining, available0, available1).Some?
    ensures var a := Offer(p, remaining, available0, available1).value;
      a.amount0 <= Scaled(p.base0, p.weight) && a.amount0 <= available0 * RatioPercent(remaining) / 100 &&
      a.amount1 <= Scaled(p.base1, p.weight) && a.amount1 <= available1 * RatioPercent(remaining) / 100
  {
  }

  /** What is left of token t after `acc`: the snapshot balance minus the
      running total (never negative once the totals stay within the snapshot). */
  function Left(balances: Balances, acc: seq<Allocation>, t: Token): nat
    requires t in balances
  {
    if Used(acc, t) <= balances[t] then balances[t] - Used(acc, t) else 0
  }

  /** What the loop body commits for the first of `pools` after `acc`. */
  function Commit(pools: seq<Pool>, balances: Balances, acc: seq<Allocation>): (r: Option<Allocation>)
    requires pools != [] && Plannable(pools, balances)
  {
    var p := pools[0];
    Offer(p, |pools|, Left(balances, acc, p.token0), Left(balances, acc, p.token1))
  }

  /** The planning pass over `pools` (the sorted pools still to process),
      appending to the allocations already committed. */
  function PlanFrom(pools: seq<Pool>, balances: Balances, acc: seq<Allocation>): (r: seq<Allocation>)
    requires Plannable(pools, balances)
    ensures |acc| <= |r| <= |acc| + |pools| && r[..|acc|] == acc
    decreases |pools|
  {
    if pools == [] then acc
    else
      var next := Commit(pools, balances, acc);
      var acc' := if next.Some? then acc + [next.value] else acc;
      var r := PlanFrom(pools[1..], balances, acc');
      assert r[..|acc|] == r[..|acc'|][..|acc|];
      r
  }

  /** `calculateBalanceAllocation(pools, balances)` as a value. */
  function Plan(pools: seq<Pool>, balances: Balances): seq<Allocation>
    requires Plannable(pools, balances)
  {
    PlannableReordered(pools, SortByWeight(pools), balances);
    PlanFrom(SortByWeight(pools), balances, [])
  }

  /** One step of the planning pass. */
  lemma PlanFromStep(pools: seq<Pool>, balances: Balances, acc: seq<Allocation>)
    requires pools != [] && Plannable(pools, balances)
    ensures var next := Commit(pools, balances, acc);
      PlanFrom(pools, balances, acc)
      == PlanFrom(pools[1..], balances, if next.Some? then acc + [next.value] else acc)
  {
  }

  /** A committed allocation keeps the running totals within the snapshot. */
  lemma CommitWithin(pools: seq<Pool>, balances: Balances, acc: seq<Allocation>)
    requires pools != [] && Plannable(pools, balances) && Within(acc, balances)
    ensures Commit(pools, balances, acc).Some? ==>
              Within(acc + [Commit(pools, balances, acc).value], balances)
  {
    var r := Commit(pools, balances, acc);
    if r.Some? {
      forall t | t in balances ensures Used(acc + [r.value], t) <= balances[t] {
        UsedSnoc(acc, r.value, t);
      }
    }
  }

  /** The planning pass never takes more of a token than the snapshot holds. */
  lemma {:induction false} PlanFromWithin(pools: seq<Pool>, balances: Balances, acc: seq<Allocation>)
    requires Plannable(pools, balances) && Within(acc, balances)
    ensures Within(PlanFrom(pools, balances, acc), balances)
    decreases |pools|
  {
    if pools != [] {
      var next := Commit(pools, balances, acc);
      CommitWithin(pools, balances, acc);
      var acc' := if next.Some? then acc + [next.value] else acc;
      PlanFromWithin(pools[1..], balances, acc');
    }
  }

  /** Allocation `offset + k` of `r` is the one for `pools[k]`: its amounts are
      the weight-scaled base amounts, each lowered to the graduated share of
      what the allocations before it left of that token. */
  ghost predicate PlannedAt(r: seq<Allocation>, offset: nat, pools: seq<Pool>, balances: Balances, k: nat)
    requires Plannable(pools, balances) && k < |pools| && offset + k < |r|
  {
    var a, p := r[offset + k], pools[k];
    a.pool == p
    && a.amount0 == Lowered(Scaled(p.base0, p.weight), Cap(Left(balances, r[..offset + k], p.token0), |pools| - k))
    && a.amount1 == Lowered(Scaled(p.base1, p.weight), Cap(Left(balances, r[..offset + k], p.token1), |pools| - k))
  }

  /** Planning position k of `pools` is planning position k-1 of its tail,
      one allocation further on. */
  lemma PlannedAtShift(r: seq<Allocation>, offset: nat, pools: seq<Pool>, balances: Balances, k: nat)
    requires 0 < k < |pools| && offset + k < |r|
    requires Plannable(pools, balances) && Plannable(pools[1..], balances)
    ensures PlannedAt(r, offset + 1, pools[1..], balances, k - 1) == PlannedAt(r, offset, pools, balances, k)
  {
    assert pools[1..][k - 1] == pools[k];
  }

  /** The planning pass allocates to every pool, in order, and each amount is
      the weight-scaled one lowered to its cap. */
  lemma {:induction false} PlanFromCovers(pools: seq<Pool>, balances: Balances, acc: seq<Allocation>)
    requires Plannable(pools, balances)
    ensures |PlanFrom(pools, balances, acc)| == |acc| + |pools|
    ensures forall k :: 0 <= k < |pools| ==> PlannedAt(PlanFrom(pools, balances, acc), |acc|, pools, balances, k)
    decreases |pools|
  {
    if pools != [] {
      var p := pools[0];
      var r := PlanFrom(pools, balances, acc);
      OfferAlwaysCommits(p, |pools|, Left(balances, acc, p.token0), Left(balances, acc, p.token1));
      var next := Commit(pools, balances, acc);
      var acc' := acc + [next.value];
      PlanFromStep(pools, balances, acc);
      PlannableSuffix(pools, 1, balances);
      PlanFromCovers(pools[1..], balances, acc');
      assert r == PlanFrom(pools[1..], balances, acc');
      forall k | 0 <= k < |pools| ensures PlannedAt(r, |acc|, pools, balances, k) {
        if k == 0 {
          assert r[..|acc'|] == acc';
          assert r[|acc|] == acc'[|acc|] == next.value;
        } else {
          PlannedAtShift(r, |acc|, pools, balances, k);
        }
      }
    }
  }

  /** The pools of a list of allocations, in order. */
  function PoolsOf(acc: seq<Allocation>): (ps: seq<Pool>)
    ensures |ps| == |acc| && forall i :: 0 <= i < |acc| ==> ps[i] == acc[i].pool
  {
    seq(|acc|, i requires 0 <= i < |acc| => acc[i].pool)
  }

  /** What the planner promises: one allocation per pool, the pools in
      descending weight order (pools of equal weight in their input order, and
      the same pools as the input), every amount the weight-scaled base amount
      lowered to the graduated share of what remains, and no token used beyond
      its snapshot balance. */
  lemma PlanCorrect(pools: seq<Pool>, balances: Balances)
    requires Plannable(pools, balances)
    ensures |Plan(pools, balances)| == |pools|
    ensures multiset(PoolsOf(Plan(pools, balances))) == multiset(pools)
    ensures Descending(PoolsOf(Plan(pools, balances)))
    ensures forall w: nat :: OfWeight(PoolsOf(Plan(pools, balances)), w) == OfWeight(pools, w)
    ensures Plannable(SortByWeight(pools), balances) && |SortByWeight(pools)| == |pools|
    ensures forall k :: 0 <= k < |pools| ==> PlannedAt(Plan(pools, balances), 0, SortByWeight(pools), balances, k)
    ensures Within(Plan(pools, balances), balances)
  {
    var sorted := SortByWeight(pools);
    PlannableReordered(pools, sorted, balances);
    PlanFromCovers(sorted, balances, []);
    PlanFromWithin(sorted, balances, []);
    SortByWeightCorrect(pools);
    var r := Plan(pools, balances);
    forall i | 0 <= i < |r| ensures PoolsOf(r)[i] == sorted[i] {
      assert PlannedAt(r, 0, sorted, balances, i);
    }
    assert PoolsOf(r) == sorted;
  }

  /** The loop body's amounts when the running totals are within the snapshot. */
  lemma CommitIsOffer(pools: seq<Pool>, balances: Balances, acc: seq<Allocation>, available0: nat, available1: nat)
    requires pools != [] && Plannable(pools, balances) && Within(acc, balances)
    requires available0 == balances[pools[0].token0] - Used(acc, pools[0].token0)
    requires available1 == balances[pools[0].token1] - Used(acc, pools[0].token1)
    ensures Commit(pools, balances, acc) == Offer(pools[0], |pools|, available0, available1)
  {
  }

  /** The running totals of all three tokens as one map. */
  function Totals(acc: seq<Allocation>): (m: map<Token, nat>)
    ensures forall t :: t in m && m[t] == Used(acc, t)
  {
    var m := map[USDC := Used(acc, USDC), USDT := Used(acc, USDT), WPHRS := Used(acc, WPHRS)];
    assert forall t :: t in m && m[t] == Used(acc, t) by {
      forall t ensures t in m && m[t] == Used(acc, t) {
        TokenCases(t);
      }
    }
    m
  }

  /** Adding a committed allocation's amounts to the running totals of its two
      tokens gives the totals over the allocations including it. */
  lemma TotalsAfterCommit(used: map<Token, nat>, acc: seq<Allocation>, pool: Pool, amount0: nat, amount1: nat)
    requires used == Totals(acc) && DistinctTokens(pool)
    ensures used[pool.token0 := used[pool.token0] + amount0][pool.token1 := used[pool.token1] + amount1]
         == Totals(acc + [Allocation(pool, amount0, amount1)])
  {
    var a := Allocation(pool, amount0, amount1);
    var m := used[pool.token0 := used[pool.token0] + amount0][pool.token1 := used[pool.token1] + amount1];
    forall t ensures Totals(acc + [a])[t] == m[t] {
      UsedSnoc(acc, a, t);
      if t == pool.token1 {
        assert m[t] == used[t] + amount1 && AmountOf(a, t) == amount1;
      } else if t == pool.token0 {
        assert m[t] == used[t] + amount0 && AmountOf(a, t) == amount0;
      } else {
        assert m[t] == used[t] && AmountOf(a, t) == 0;
      }
    }
    assert m.Keys == Totals(acc + [a]).Keys;
  }

  /** The amounts the loop body settles on for one pool: the weight-scaled
      base amounts, each lowered to its cap when it exceeds it. */
  method CappedAmounts(pool: Pool, remaining: nat, available0: nat, available1: nat)
    returns (amount0: nat, amount1: nat)
    requires remaining >= 1
    ensures Offer(pool, remaining, available0, available1)
         == if available0 >= amount0 && available1 >= amount1
            then Some(Allocation(pool, amount0, amount1)) else None
  {
    amount0 := Scaled(pool.base0, pool.weight);
    amount1 := Scaled(pool.base1, pool.weight);
    var max0 := Cap(available0, remaining);
    var max1 := Cap(available1, remaining);
    if amount0 > max0 {
      amount0 := max0;
    }
    if amount1 > max1 {
      amount1 := max1;
    }
  }

  /** The loop body for the pool `rest[0]`: compute the capped amounts and,
      when both fit what remains, append the allocation and add its amounts to
      the running totals. */
  method AllocateNext(rest: seq<Pool>, balances: Balances, allocations: seq<Allocation>, used: map<Token, nat>)
    returns (allocations': seq<Allocation>, used': map<Token, nat>)
    requires rest != [] && Plannable(rest, balances)
    requires used == Totals(allocations) && Within(allocations, balances)
    ensures used' == Totals(allocations') && Within(allocations', balances)
    ensures PlanFrom(rest[1..], balances, allocations') == PlanFrom(rest, balances, allocations)
  {
    var pool := rest[0];
    var available0: nat := balances[pool.token0] - used[pool.token0];
    var available1: nat := balances[pool.token1] - used[pool.token1];
    var amount0, amount1 := CappedAmounts(pool, |rest|, available0, available1);
    CommitIsOffer(rest, balances, allocations, available0, available1);
    CommitWithin(rest, balances, allocations);
    PlanFromStep(rest, balances, allocations);
    assert DistinctTokens(pool);
    allocations', used' := allocations, used;
    if available0 >= amount0 && available1 >= amount1 {
      var a := Allocation(pool, amount0, amount1);
      assert Commit(rest, balances, allocations) == Some(a);
      TotalsAfterCommit(used, allocations, pool, amount0, amount1);
      allocations' := allocations + [a];
      used' := used[pool.token0 := used[pool.token0] + amount0][pool.token1 := used[pool.token1] + amount1];
    } else {
      assert Commit(rest, balances, allocations) == None;
    }
  }

  /** The planner: sort, then one pass committing each pool's capped amounts
      and adding them to the per-token running totals, which stay within the
      snapshot. */
  method CalculateBalanceAllocation(pools: seq<Pool>, balances: Balances) returns (allocations: seq<Allocation>)
    requires Plannable(pools, balances)
    ensures allocations == Plan(pools, balances)
    ensures forall t :: t in balances ==> Used(allocations, t) <= balances[t]
  {
    allocations := [];
    var used: map<Token, nat> := map[USDC := 0, USDT := 0, WPHRS := 0];
    assert used == Totals([]);
    var sorted := SortByWeight(pools);
    PlannableReordered(pools, sorted, balances);
    assert sorted[0..] == sorted;
    for i := 0 to |sorted|
      invariant used == Totals(allocations)
      invariant Within(allocations, balances)
      invariant Plannable(sorted[i..], balances)
      invariant PlanFrom(sorted[i..], balances, allocations) == PlanFrom(sorted, balances, [])
    {
      assert sorted[i..][1..] == sorted[i + 1..];
      PlannableSuffix(sorted, i + 1, balances);
      allocations, used := AllocateNext(sorted[i..], balances, allocations, used);
    }
    assert sorted[|sorted|..] == [];
  }
}
