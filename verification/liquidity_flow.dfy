/** The multi-pool liquidity flow (`executeLiquidityAddition`): select pools,
    fall back on the deficit resolver when none is affordable, plan the
    amounts, mint each pool and summarise. Snapshots, random draws and chain
    outcomes are inputs. */
module LiquidityFlow {
  import opened Wrappers
  import opened LiquidityCatalog
  import opened SeqUtil
  import opened LiquiditySelection
  import opened LiquidityAllocation
  import opened LiquidityDeficit
  import opened LiquidityMint

  /** The reduced targets handed to the resolver when no pool is affordable:
      0.02 WPHRS, 15 USDC and 15 USDT, in that order. */
  const MinRequired: seq<Requirement> :=
    [Requirement(WPHRS, 20_000_000_000_000_000), Requirement(USDC, 15_000_000), Requirement(USDT, 15_000_000)]

  /** `maxPools || 3`: no limit given (or zero) means three. */
  function ConfigMaxPools(maxPools: nat): (n: nat)
    ensures n >= 1
  {
    if maxPools == 0 then 3 else maxPools
  }

  /** Whether `performUniversalIntelligentSwap(balances, MinRequired)` reports success. */
  function ResolverSucceeds(balances: Balances, native: Option<nat>, deposit: DepositOutcome,
                            estimate: (Token, Token, nat) -> Option<nat>, swapOk: seq<bool>, recheckOk: bool): bool
    requires |swapOk| >= |MinRequired|
  {
    var plans := SwapPlans(MinRequired, balances, native, deposit, estimate);
    Verdict(|plans|, CountTrue(swapOk[..|plans|]), recheckOk)
  }

  /** The errors the flow throws (and turns into a failure result); a
      balance read that throws is `BalanceReadFailed`. */
  datatype FlowError = BalanceReadFailed | SwapFailed | NoPoolsAfterSwap | NoAllocations

  datatype AdditionOutcome =
    | AdditionFailed(error: FlowError)
    | AdditionDone(success: bool, totalPools: nat, successfulPools: nat,
                   results: seq<PoolResult>, successfulTxs: seq<string>)

  /** The number of successful results. */
  function Successes(results: seq<PoolResult>): (n: nat)
    ensures n <= |results|
  {
    if results == [] then 0
    else Successes(results[..|results| - 1]) + (if results[|results| - 1].success then 1 else 0)
  }

  lemma SuccessesSnoc(results: seq<PoolResult>, r: PoolResult)
    ensures Successes(results + [r]) == Successes(results) + if r.success then 1 else 0
  {
    assert (results + [r])[..|results|] == results;
  }

  /** `results.filter(r => r.success).map(r => r.txHash)`. */
  function SuccessfulTxs(results: seq<PoolResult>): seq<string> {
    if results == [] then []
    else
      var last := results[|results| - 1];
      SuccessfulTxs(results[..|results| - 1]) + (if last.success && last.txHash.Some? then [last.txHash.value] else [])
  }

  /** When every success carries its hash, there is one hash per success, and
      the count is positive exactly when some result succeeded. */
  lemma {:induction false} SuccessfulTxsCount(results: seq<PoolResult>)
    requires forall i :: 0 <= i < |results| && results[i].success ==> results[i].txHash.Some?
    ensures |SuccessfulTxs(results)| == Successes(results)
    ensures Successes(results) > 0 <==> exists i :: 0 <= i < |results| && results[i].success
  {
    if results != [] {
      var init := results[..|results| - 1];
      SuccessfulTxsCount(init);
      if exists i :: 0 <= i < |init| && init[i].success {
        var i :| 0 <= i < |init| && init[i].success;
        assert results[i].success;
      }
    }
  }

  /** One turn of the per-pool loop: the pool's result; the mint parameters
      are not needed past the call. */
  method MintOne(a: Allocation, m: MintAttempt) returns (result: PoolResult)
    requires |m.waits| >= MaxAttempts
    ensures result == MintResult(m)
  {
    var params;
    result, params := AddLiquidityWithAllocation(a, m);
  }

  /** The per-pool loop: add each allocation in turn and count the successes. */
  method AddAllocations(allocations: seq<Allocation>, attempts: seq<MintAttempt>)
    returns (results: seq<PoolResult>, successCount: nat)
    requires |attempts| >= |allocations|
    requires forall i :: 0 <= i < |attempts| ==> |attempts[i].waits| >= MaxAttempts
    ensures |results| == |allocations|
    ensures forall i :: 0 <= i < |allocations| ==> results[i] == MintResult(attempts[i])
    ensures successCount == Successes(results)
  {
    results := [];
    successCount := 0;
    for i := 0 to |allocations|
      invariant |results| == i
      invariant forall j :: 0 <= j < i ==> results[j] == MintResult(attempts[j])
      invariant successCount == Successes(results)
    {
      var result := MintOne(allocations[i], attempts[i]);
      SuccessesSnoc(results, result);
      results := results + [result];
      if result.success {
        successCount := successCount + 1;
      }
    }
  }

  /** Every pool selected from a snapshot can be planned against any snapshot
      that holds at least the same tokens. */
  lemma SelectionPlannable(snapshot: Balances, maxPools: nat, perm: seq<nat>, draw: int, balances: Balances)
    requires IsPermutation(perm, |AffordablePools(Pools, snapshot)|)
    requires snapshot.Keys <= balances.Keys
    ensures Plannable(Selection(AffordablePools(Pools, snapshot), maxPools, perm, draw), balances)
  {
    SelectedAffordable(snapshot, maxPools, perm, draw);
    CatalogPoolsDistinct();
    var s := Selection(AffordablePools(Pools, snapshot), maxPools, perm, draw);
    forall i | 0 <= i < |s|
      ensures DistinctTokens(s[i]) && s[i].token0 in balances && s[i].token1 in balances
    {
      var j :| 0 <= j < |Pools| && Pools[j] == s[i];
    }
  }

  /** The pool choice: the first selection, or after the resolver succeeds the
      selection from the new snapshot, with the balances merged into it.
      `newRead` is the second balance read, None when it throws. */
  method ChoosePools(limit: nat, balances: Balances, perm: seq<nat>, draw: int,
                     native: Option<nat>, deposit: DepositOutcome, estimate: (Token, Token, nat) -> Option<nat>,
                     swapOk: seq<bool>, recheckOk: bool, newRead: Option<Balances>, perm2: seq<nat>, draw2: int)
    returns (error: Option<FlowError>, selected: seq<Pool>, merged: Balances)
    requires IsPermutation(perm, |AffordablePools(Pools, balances)|)
    requires AffordablePools(Pools, balances) != [] ==>
               ValidDraw(draw, Min(limit, |AffordablePools(Pools, balances)|))
    requires newRead.Some? ==> IsPermutation(perm2, |AffordablePools(Pools, newRead.value)|)
    requires newRead.Some? && AffordablePools(Pools, newRead.value) != [] ==>
               ValidDraw(draw2, Min(limit, |AffordablePools(Pools, newRead.value)|))
    requires |swapOk| >= |MinRequired|
    ensures AffordablePools(Pools, balances) != [] ==>
              error == None && merged == balances
              && selected == Selection(AffordablePools(Pools, balances), limit, perm, draw)
    ensures AffordablePools(Pools, balances) == [] ==>
              if !ResolverSucceeds(balances, native, deposit, estimate, swapOk, recheckOk) then error == Some(SwapFailed)
              else if newRead.None? then error == Some(BalanceReadFailed)
              else if AffordablePools(Pools, newRead.value) == [] then error == Some(NoPoolsAfterSwap)
              else error == None && merged == balances + newRead.value
                   && selected == Selection(AffordablePools(Pools, newRead.value), limit, perm2, draw2)
    ensures error == None ==> selected != [] && Plannable(selected, merged)
    ensures error == None ==> |selected| <= Max(3, limit) && |selected| <= |Pools|
  {
    selected := SelectAvailablePools(balances, limit, perm, draw);
    merged := balances;
    SelectionSize(AffordablePools(Pools, balances), limit, perm, draw);
    SelectionPlannable(balances, limit, perm, draw, balances);
    if |selected| == 0 {
      var swapSuccess, _, _ := PerformUniversalIntelligentSwap(MinRequired, balances, native, deposit, estimate,
                                                               swapOk, recheckOk);
      if swapSuccess {
        if newRead.None? {
          return Some(BalanceReadFailed), selected, merged;
        }
        var newBalances := newRead.value;
        selected := SelectAvailablePools(newBalances, limit, perm2, draw2);
        SelectionSize(AffordablePools(Pools, newBalances), limit, perm2, draw2);
        if |selected| == 0 {
          return Some(NoPoolsAfterSwap), selected, merged;
        }
        merged := balances + newBalances;
        SelectionPlannable(newBalances, limit, perm2, draw2, merged);
      } else {
        return Some(SwapFailed), selected, merged;
      }
    }
    error := None;
  }

  /** The report of a finished addition: one result per allocation, the i-th
      from the i-th mint, the successful pools counted and their hashes
      listed, and success meaning at least one pool was added. */
  predicate Reports(outcome: AdditionOutcome, allocations: seq<Allocation>, attempts: seq<MintAttempt>)
    requires forall i :: 0 <= i < |attempts| ==> |attempts[i].waits| >= MaxAttempts
  {
    outcome.AdditionDone?
    && |allocations| <= |attempts|
    && outcome.totalPools == |allocations| == |outcome.results|
    && (forall i :: 0 <= i < |allocations| ==> outcome.results[i] == MintResult(attempts[i]))
    && outcome.successfulPools == Successes(outcome.results) == |outcome.successfulTxs|
    && outcome.successfulTxs == SuccessfulTxs(outcome.results)
    && (outcome.success <==> exists i :: 0 <= i < |allocations| && outcome.results[i].success)
  }

  /** The second half of the flow: plan the chosen pools, mint each
      allocation and summarise. */
  method MintChosen(selected: seq<Pool>, merged: Balances, attempts: seq<MintAttempt>)
    returns (outcome: AdditionOutcome, allocations: seq<Allocation>)
    requires selected != [] && Plannable(selected, merged) && |attempts| >= |selected|
    requires forall i :: 0 <= i < |attempts| ==> |attempts[i].waits| >= MaxAttempts
    ensures allocations == Plan(selected, merged) && |allocations| == |selected|
    ensures Reports(outcome, allocations, attempts)
  {
    allocations := CalculateBalanceAllocation(selected, merged);
    PlanCorrect(selected, merged);
    var results, successCount := AddAllocations(allocations, attempts);
    forall i | 0 <= i < |results| && results[i].success ensures results[i].txHash.Some? {
      MintResultMeans(attempts[i]);
    }
    SuccessfulTxsCount(results);
    outcome := AdditionDone(successCount > 0, |allocations|, successCount, results, SuccessfulTxs(results));
  }

  /** `executeLiquidityAddition(maxPools)`: `read` is the first balance read
      (None when it throws), `perm`/`draw` the first shuffle and count; the
      resolver's inputs follow; `newRead`, `perm2`, `draw2` are the second read
      and draws after a successful resolution; `attempts[i]` is what happens
      to the i-th mint. */
  method ExecuteLiquidityAddition(maxPools: nat, read: Option<Balances>, perm: seq<nat>, draw: int,
                                  native: Option<nat>, deposit: DepositOutcome,
                                  estimate: (Token, Token, nat) -> Option<nat>, swapOk: seq<bool>, recheckOk: bool,
                                  newRead: Option<Balances>, perm2: seq<nat>, draw2: int, attempts: seq<MintAttempt>)
    returns (outcome: AdditionOutcome, selected: seq<Pool>, allocations: seq<Allocation>)
    requires read.Some? ==> IsPermutation(perm, |AffordablePools(Pools, read.value)|)
    requires read.Some? && AffordablePools(Pools, read.value) != [] ==>
               ValidDraw(draw, Min(ConfigMaxPools(maxPools), |AffordablePools(Pools, read.value)|))
    requires newRead.Some? ==> IsPermutation(perm2, |AffordablePools(Pools, newRead.value)|)
    requires newRead.Some? && AffordablePools(Pools, newRead.value) != [] ==>
               ValidDraw(draw2, Min(ConfigMaxPools(maxPools), |AffordablePools(Pools, newRead.value)|))
    requires |swapOk| >= |MinRequired|
    requires |attempts| >= |Pools|
    requires forall i :: 0 <= i < |attempts| ==> |attempts[i].waits| >= MaxAttempts
    // a first read that throws fails the flow
    ensures read.None? ==> outcome == AdditionFailed(BalanceReadFailed)
    // otherwise the flow fails exactly when nothing is affordable and the resolver
    // does not produce an affordable pool, or the read after it throws
    ensures read.Some? ==>
              (outcome.AdditionFailed? <==>
                 AffordablePools(Pools, read.value) == []
                 && (!ResolverSucceeds(read.value, native, deposit, estimate, swapOk, recheckOk)
                     || newRead.None? || AffordablePools(Pools, newRead.value) == []))
    ensures read.Some? && outcome.AdditionFailed? ==>
              (outcome.error == SwapFailed <==> !ResolverSucceeds(read.value, native, deposit, estimate, swapOk, recheckOk))
              && (outcome.error == BalanceReadFailed <==>
                    ResolverSucceeds(read.value, native, deposit, estimate, swapOk, recheckOk) && newRead.None?)
              && outcome.error != NoAllocations
    // which pools and which balances are planned
    ensures read.Some? && AffordablePools(Pools, read.value) != [] ==>
              selected == Selection(AffordablePools(Pools, read.value), ConfigMaxPools(maxPools), perm, draw)
              && Plannable(selected, read.value) && allocations == Plan(selected, read.value)
    ensures outcome.AdditionDone? && AffordablePools(Pools, read.value) == [] ==>
              newRead.Some?
              && selected == Selection(AffordablePools(Pools, newRead.value), ConfigMaxPools(maxPools), perm2, draw2)
              && Plannable(selected, read.value + newRead.value) && allocations == Plan(selected, read.value + newRead.value)
    // the summary
    ensures outcome.AdditionDone? ==>
              read.Some? && |allocations| == |selected| && 1 <= |selected| <= Max(3, ConfigMaxPools(maxPools))
              && Reports(outcome, allocations, attempts)
  {
    if read.None? {
      return AdditionFailed(BalanceReadFailed), [], [];
    }
    var limit := ConfigMaxPools(maxPools);
    var error, merged;
    error, selected, merged := ChoosePools(limit, read.value, perm, draw, native, deposit, estimate, swapOk, recheckOk,
                                           newRead, perm2, draw2);
    if error.Some? {
      return AdditionFailed(error.value), selected, [];
    }
    outcome, allocations := MintChosen(selected, merged, attempts);
  }
}
