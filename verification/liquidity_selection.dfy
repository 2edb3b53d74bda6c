/** Pool selection (`selectAvailablePools`): keep the catalog pools whose base
    amounts both balances cover, shuffle them and take a prefix of between three
    and `maxPools` pools. The shuffle and the random count are inputs. */
module LiquiditySelection {
  import opened LiquidityCatalog
  import opened SeqUtil

  function Min(a: int, b: int): int {
    if a <= b then a else b
  }

  function Max(a: int, b: int): int {
    if a >= b then a else b
  }

  /** A pool is affordable when both of its tokens are in the snapshot and
      each balance covers the pool's base amount of that token. */
  predicate Affordable(p: Pool, balances: Balances) {
    p.token0 in balances && p.token1 in balances
    && balances[p.token0] >= p.base0 && balances[p.token1] >= p.base1
  }

  /** The affordable pools of `pools`, in their order. */
  function AffordablePools(pools: seq<Pool>, balances: Balances): seq<Pool> {
    Filter(pools, (p: Pool) => Affordable(p, balances))
  }

  /** The values `Math.floor(Math.random() * (target - 3 + 1))` can take for a
      random number in [0, 1): 0 to target - 3 when target >= 3; when the
      factor is zero or negative, 0 down to target - 2. */
  predicate ValidDraw(draw: int, target: int) {
    if target >= 3 then 0 <= draw <= target - 3 else target - 2 <= draw <= 0
  }

  /** `Math.min(Math.max(3, draw + 3), length)`. */
  function PoolCount(draw: int, length: nat): nat {
    Min(Max(3, draw + 3), length)
  }

  /** What `selectAvailablePools` returns for the affordable list `available`,
      the shuffle `perm` and the random draw. */
  function Selection(available: seq<Pool>, maxPools: nat, perm: seq<nat>, draw: int): (selected: seq<Pool>)
    requires IsPermutation(perm, |available|)
  {
    if available == [] then []
    else
      PermutationBounds(perm, |available|);
      Permuted(available, perm)[..PoolCount(draw, |available|)]
  }

  /** The loop that pushes every affordable pool of `pools`, in order. */
  method CollectAffordable(pools: seq<Pool>, balances: Balances) returns (available: seq<Pool>)
    ensures available == AffordablePools(pools, balances)
  {
    available := [];
    for i := 0 to |pools|
      invariant available == AffordablePools(pools[..i], balances)
    {
      assert pools[..i + 1] == pools[..i] + [pools[i]];
      FilterSnoc(pools[..i], pools[i], (p: Pool) => Affordable(p, balances));
      if Affordable(pools[i], balances) {
        available := available + [pools[i]];
      }
    }
    assert pools[..|pools|] == pools;
  }

  /** The selection: collect the affordable catalog pools, then shuffle and
      take a prefix. */
  method SelectAvailablePools(balances: Balances, maxPools: nat, perm: seq<nat>, draw: int)
    returns (selected: seq<Pool>)
    requires IsPermutation(perm, |AffordablePools(Pools, balances)|)
    requires AffordablePools(Pools, balances) != [] ==>
               ValidDraw(draw, Min(maxPools, |AffordablePools(Pools, balances)|))
    ensures selected == Selection(AffordablePools(Pools, balances), maxPools, perm, draw)
  {
    var available := CollectAffordable(Pools, balances);
    if |available| == 0 {
      return [];
    }
    PermutationBounds(perm, |available|);
    var shuffled := Permuted(available, perm);
    var count := Min(Max(3, draw + 3), |shuffled|);
    selected := shuffled[..count];
  }

  /** A pool is in the affordable list exactly when it is one of the given
      pools and both balances cover its base amounts. */
  lemma AffordableMembers(pools: seq<Pool>, balances: Balances, p: Pool)
    ensures p in AffordablePools(pools, balances) <==> p in pools && Affordable(p, balances)
  {
    var keep := (q: Pool) => Affordable(q, balances);
    FilterMembers(pools, keep);
    if p in AffordablePools(pools, balances) {
      var i :| 0 <= i < |Filter(pools, keep)| && Filter(pools, keep)[i] == p;
    }
    if p in pools && Affordable(p, balances) {
      var i :| 0 <= i < |pools| && pools[i] == p;
    }
  }

  /** The size of the selection: never more than what is affordable, at least
      three when three are affordable, all of them when at most three are,
      at most max(3, maxPools), and empty exactly when nothing is affordable. */
  lemma SelectionSize(available: seq<Pool>, maxPools: nat, perm: seq<nat>, draw: int)
    requires IsPermutation(perm, |available|)
    requires available != [] ==> ValidDraw(draw, Min(maxPools, |available|))
    ensures var n := |Selection(available, maxPools, perm, draw)|;
      n <= |available| && n >= Min(3, |available|) && n <= Max(3, maxPools)
      && (|available| <= 3 ==> n == |available|)
      && (maxPools >= 3 ==> n <= maxPools)
      && (n == 0 <==> available == [])
  {
    PermutationBounds(perm, |available|);
  }

  /** The selection is a prefix of a reordering of the affordable list: no pool
      is selected more often than it is affordable, and when everything fits
      the selection is the whole list, reordered. */
  lemma SelectionFromAvailable(available: seq<Pool>, maxPools: nat, perm: seq<nat>, draw: int)
    requires IsPermutation(perm, |available|)
    ensures multiset(Selection(available, maxPools, perm, draw)) <= multiset(available)
    ensures |available| <= 3 ==> multiset(Selection(available, maxPools, perm, draw)) == multiset(available)
  {
    if available != [] {
      PermutationBounds(perm, |available|);
      PermutedMultiset(available, perm);
      var shuffled := Permuted(available, perm);
      var k := PoolCount(draw, |available|);
      assert shuffled == shuffled[..k] + shuffled[k..];
      assert multiset(shuffled) == multiset(shuffled[..k]) + multiset(shuffled[k..]);
      if |available| <= 3 {
        assert shuffled[..k] == shuffled;
      }
    }
  }

  /** Every selected pool is a catalog pool both balances cover. */
  lemma SelectedAffordable(balances: Balances, maxPools: nat, perm: seq<nat>, draw: int)
    requires IsPermutation(perm, |AffordablePools(Pools, balances)|)
    ensures var s := Selection(AffordablePools(Pools, balances), maxPools, perm, draw);
      forall i :: 0 <= i < |s| ==> s[i] in Pools && Affordable(s[i], balances)
  {
    var available := AffordablePools(Pools, balances);
    var s := Selection(available, maxPools, perm, draw);
    SelectionFromAvailable(available, maxPools, perm, draw);
    forall i | 0 <= i < |s| ensures s[i] in Pools && Affordable(s[i], balances) {
      assert s[i] in multiset(s);
      AffordableMembers(Pools, balances, s[i]);
    }
  }
}
