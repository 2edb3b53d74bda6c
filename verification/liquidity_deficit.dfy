/** The deficit resolver (`performUniversalIntelligentSwap`) with its helpers:
    the swap-amount clamp of `calculateSwapAmount`, the first-match route search
    of `createSwapPlan` and the balance pre-check of `wrapPHRSToWPHRS`. Chain
    reads, the wrap deposit, the swaps and the floating-point rate estimate are
    inputs. */
module LiquidityDeficit {
  import opened LiquidityCatalog
  import opened Wrappers

  // ----- calculateSwapAmount: the integer clamp -----

  /** The clamp applied to the estimated source amount `computed`: raised to
      `minimum` when below it, otherwise lowered to half the balance when above
      that; finally, an amount above the balance becomes 90% of the balance. */
  function ClampSwapAmount(computed: nat, minimum: nat, balance: nat): (amount: nat)
    ensures amount == computed || amount == minimum || amount == balance * 50 / 100 || amount == balance * 90 / 100
  {
    var maxUsable := balance * 50 / 100;
    var clamped := if computed < minimum then minimum
                   else if computed > maxUsable then maxUsable
                   else computed;
    if clamped > balance then balance * 90 / 100 else clamped
  }

  /** The clamp never asks for more than the source balance. */
  lemma ClampWithinBalance(computed: nat, minimum: nat, balance: nat)
    ensures ClampSwapAmount(computed, minimum, balance) <= balance
  {
    assert balance * 90 / 100 <= balance;
    assert balance * 50 / 100 <= balance;
  }

  /** An estimate between the minimum and half the balance is used unchanged;
      one below the minimum is raised to it when the balance covers it; one
      above half the balance (and not below the minimum) becomes half the
      balance. */
  lemma ClampCases(computed: nat, minimum: nat, balance: nat)
    ensures minimum <= computed <= balance * 50 / 100 ==> ClampSwapAmount(computed, minimum, balance) == computed
    ensures computed < minimum <= balance ==> ClampSwapAmount(computed, minimum, balance) == minimum
    ensures minimum <= computed && computed > balance * 50 / 100 ==>
              ClampSwapAmount(computed, minimum, balance) == balance * 50 / 100
  {
    assert balance * 50 / 100 <= balance;
  }

  /** With a positive minimum and a balance above it, the amount is positive. */
  lemma ClampPositive(computed: nat, minimum: nat, balance: nat)
    requires 0 < minimum < balance
    ensures ClampSwapAmount(computed, minimum, balance) > 0
  {
    assert balance >= 2;
    assert balance * 50 / 100 >= 1;
    assert balance * 90 / 100 >= 1;
  }

  /** The amount can end below the minimum: with a balance of 1.5 whole tokens
      and an estimate of one whole token, half the balance (0.75) is used. */
  lemma ClampCanGoBelowMinimum()
    ensures ClampSwapAmount(1_000_000, 1_000_000, 1_500_000) == 750_000 < 1_000_000
  {
  }

  // ----- createSwapPlan -----

  /** A planned swap of `amount` of `fromToken` into `toToken`. */
  datatype SwapPlan = SwapPlan(fromToken: Token, toToken: Token, amount: nat, targetDeficit: nat)

  /** The source tokens tried for a short token, in priority order. */
  function Routes(target: Token): (sources: seq<Token>)
    ensures |sources| == 2 && target !in sources
  {
    match target
    case WPHRS => [USDC, USDT]
    case USDC => [USDT, WPHRS]
    case USDT => [USDC, WPHRS]
  }

  /** A source qualifies when its balance is known and exceeds one whole token
      and the rate estimate produced an amount. */
  predicate Usable(source: Token, balances: Balances, estimate: Token -> Option<nat>) {
    source in balances && balances[source] > Unit(source) && estimate(source).Some?
  }

  /** The search over `sources`: the first qualifying one whose clamped amount
      is positive gives the plan. */
  function FirstPlan(sources: seq<Token>, target: Token, deficit: nat, balances: Balances,
                     estimate: Token -> Option<nat>): Option<SwapPlan>
  {
    if sources == [] then None
    else
      var s := sources[0];
      if s in balances && balances[s] > Unit(s) && estimate(s).Some?
         && ClampSwapAmount(estimate(s).value, Unit(s), balances[s]) > 0
      then Some(SwapPlan(s, target, ClampSwapAmount(estimate(s).value, Unit(s), balances[s]), deficit))
      else FirstPlan(sources[1..], target, deficit, balances, estimate)
  }

  /** `createSwapPlan(target, deficit, balances)`; `estimate(source)` is the
      source amount the floating-point estimate yields, None where it throws. */
  function CreateSwapPlan(target: Token, deficit: nat, balances: Balances,
                          estimate: Token -> Option<nat>): (plan: Option<SwapPlan>)
    ensures plan.Some? ==>
      plan.value.toToken == target && plan.value.targetDeficit == deficit
      && plan.value.fromToken in Routes(target) && plan.value.amount > 0
  {
    FirstPlanIsFirstUsable(Routes(target), target, deficit, balances, estimate);
    FirstPlan(Routes(target), target, deficit, balances, estimate)
  }

  lemma {:induction false} FirstPlanIsFirstUsable(sources: seq<Token>, target: Token, deficit: nat,
                                                  balances: Balances, estimate: Token -> Option<nat>)
    ensures var r := FirstPlan(sources, target, deficit, balances, estimate);
      (r.None? <==> forall i :: 0 <= i < |sources| ==> !Usable(sources[i], balances, estimate))
      && (r.Some? ==> exists i :: 0 <= i < |sources| && sources[i] == r.value.fromToken
                               && Usable(sources[i], balances, estimate)
                               && forall j :: 0 <= j < i ==> !Usable(sources[j], balances, estimate))
      && (r.Some? ==> r.value.toToken == target && r.value.targetDeficit == deficit
                      && 0 < r.value.amount <= balances[r.value.fromToken])
    decreases |sources|
  {
    if sources != [] {
      var s := sources[0];
      if Usable(s, balances, estimate) {
        ClampPositive(estimate(s).value, Unit(s), balances[s]);
        ClampWithinBalance(estimate(s).value, Unit(s), balances[s]);
        assert sources[0] == s;
      } else {
        FirstPlanIsFirstUsable(sources[1..], target, deficit, balances, estimate);
        var r := FirstPlan(sources, target, deficit, balances, estimate);
        if r.Some? {
          var i :| 0 <= i < |sources[1..]| && sources[1..][i] == r.value.fromToken
                   && Usable(sources[1..][i], balances, estimate)
                   && forall j :: 0 <= j < i ==> !Usable(sources[1..][j], balances, estimate);
          assert sources[i + 1] == r.value.fromToken;
          forall j | 0 <= j < i + 1 ensures !Usable(sources[j], balances, estimate) {
            if j > 0 {
              assert sources[j] == sources[1..][j - 1];
            }
          }
        } else {
          forall i | 0 <= i < |sources| ensures !Usable(sources[i], balances, estimate) {
            if i > 0 {
              assert sources[i] == sources[1..][i - 1];
            }
          }
        }
      }
    }
  }

  /** `createSwapPlan` picks the first source in route order that qualifies,
      and returns nothing exactly when none does; the plan is for the target
      and its deficit, with a positive amount within the source balance. */
  lemma CreateSwapPlanCorrect(target: Token, deficit: nat, balances: Balances, estimate: Token -> Option<nat>)
    ensures var r := CreateSwapPlan(target, deficit, balances, estimate);
      (r.None? <==> forall i :: 0 <= i < 2 ==> !Usable(Routes(target)[i], balances, estimate))
      && (r.Some? ==> r.value.toToken == target && r.value.targetDeficit == deficit
                      && r.value.fromToken != target
                      && Usable(r.value.fromToken, balances, estimate)
                      && 0 < r.value.amount <= balances[r.value.fromToken]
                      && (r.value.fromToken == Routes(target)[1] ==> !Usable(Routes(target)[0], balances, estimate)))
  {
    FirstPlanIsFirstUsable(Routes(target), target, deficit, balances, estimate);
  }

  // ----- wrapPHRSToWPHRS -----

  /** 0.01 PHRS kept back for gas. */
  const GasReserve: nat := 10_000_000_000_000_000

  /** The amount wrapped for a requirement: 120% of it. */
  function WrapAmount(required: nat): nat {
    required * 120 / 100
  }

  /** The chain side of a wrap attempt: either a step threw, or the deposit
      was mined with `status` and the WPHRS balance afterwards was read. */
  datatype DepositOutcome = DepositThrew | Mined(status: int, afterBalance: nat)

  /** `wrapPHRSToWPHRS(required)`: `native` is the native balance read (None if
      the read threw). The wrap is refused when the native balance does not
      cover the wrap amount plus the gas reserve; otherwise it succeeds when
      the deposit is mined with status 1 and leaves at least `required`. */
  function WrapSucceeds(required: nat, native: Option<nat>, deposit: DepositOutcome): (ok: bool)
    ensures ok ==> deposit.Mined? && deposit.afterBalance >= required
  {
    match native
    case None => false
    case Some(balance) =>
      if balance < WrapAmount(required) + GasReserve then false
      else deposit.Mined? && deposit.status == 1 && deposit.afterBalance >= required
  }

  /** A larger native balance never turns a successful wrap into a refused one. */
  lemma WrapMonotone(required: nat, less: nat, more: nat, deposit: DepositOutcome)
    requires less <= more
    ensures WrapSucceeds(required, Some(less), deposit) ==> WrapSucceeds(required, Some(more), deposit)
  {
  }

  // ----- performUniversalIntelligentSwap -----

  /** One requirement: a token and the amount of it needed. */
  datatype Requirement = Requirement(token: Token, amount: nat)

  /** The balance the resolver reads for a token; a missing entry counts as 0. */
  function Current(balances: Balances, t: Token): nat {
    if t in balances then balances[t] else 0
  }

  /** A token is short when the requirement exceeds the current balance. */
  predicate Short(r: Requirement, balances: Balances) {
    r.amount > Current(balances, r.token)
  }

  /** The wrap is attempted for a short WPHRS requirement. */
  predicate TriesWrap(r: Requirement, balances: Balances) {
    r.token == WPHRS && Short(r, balances)
  }

  /** What the resolver's first loop does for one requirement: nothing when
      the token is not short; for short WPHRS nothing when the wrap succeeds;
      otherwise the swap plan for the deficit, if any. */
  function PlanFor(r: Requirement, balances: Balances, native: Option<nat>, deposit: DepositOutcome,
                   estimate: (Token, Token, nat) -> Option<nat>): Option<SwapPlan>
  {
    if !Short(r, balances) then None
    else if r.token == WPHRS && WrapSucceeds(r.amount, native, deposit) then None
    else
      var deficit := r.amount - Current(balances, r.token);
      CreateSwapPlan(r.token, deficit, balances, (s: Token) => estimate(s, r.token, deficit))
  }

  /** For a short WPHRS requirement a successful wrap makes no plan; when the
      native balance is unknown or below 120% of the requirement plus the gas
      reserve the wrap is refused, and the requirement falls back to a swap
      from USDC or USDT for the whole deficit, made exactly when one of them
      qualifies. */
  lemma ShortWrapFallsBack(r: Requirement, balances: Balances, native: Option<nat>, deposit: DepositOutcome,
                           estimate: (Token, Token, nat) -> Option<nat>)
    requires TriesWrap(r, balances)
    ensures WrapSucceeds(r.amount, native, deposit) ==> PlanFor(r, balances, native, deposit, estimate).None?
    ensures native.None? || native.value < WrapAmount(r.amount) + GasReserve ==>
      var deficit := r.amount - Current(balances, WPHRS);
      var plan := PlanFor(r, balances, native, deposit, estimate);
      (plan.Some? <==> exists s :: s in [USDC, USDT] && s in balances && balances[s] > Unit(s)
                                   && estimate(s, WPHRS, deficit).Some?)
      && (plan.Some? ==> plan.value.fromToken in [USDC, USDT] && plan.value.toToken == WPHRS
                         && plan.value.targetDeficit == deficit)
  {
    var deficit := r.amount - Current(balances, WPHRS);
    CreateSwapPlanCorrect(WPHRS, deficit, balances, (s: Token) => estimate(s, WPHRS, deficit));
  }

  /** The plans the first loop collects, in requirement order. */
  function SwapPlans(reqs: seq<Requirement>, balances: Balances, native: Option<nat>, deposit: DepositOutcome,
                     estimate: (Token, Token, nat) -> Option<nat>): (plans: seq<SwapPlan>)
    ensures |plans| <= |reqs|
  {
    if reqs == [] then []
    else
      var last := PlanFor(reqs[|reqs| - 1], balances, native, deposit, estimate);
      SwapPlans(reqs[..|reqs| - 1], balances, native, deposit, estimate)
        + (if last.Some? then [last.value] else [])
  }

  /** The number of `true` entries. */
  function CountTrue(s: seq<bool>): (n: nat)
    ensures n <= |s|
  {
    if s == [] then 0 else CountTrue(s[..|s| - 1]) + (if s[|s| - 1] then 1 else 0)
  }

  lemma {:induction false} CountTruePositive(s: seq<bool>)
    ensures CountTrue(s) > 0 <==> exists i :: 0 <= i < |s| && s[i]
  {
    if s != [] {
      CountTruePositive(s[..|s| - 1]);
      if CountTrue(s[..|s| - 1]) > 0 {
        var i :| 0 <= i < |s[..|s| - 1]| && s[..|s| - 1][i];
        assert s[i];
      }
      if exists i :: 0 <= i < |s| && s[i] {
        var i :| 0 <= i < |s| && s[i];
        if i < |s| - 1 {
          assert s[..|s| - 1][i];
        }
      }
    }
  }

  /** The resolver's verdict: true when no plan was made; otherwise true when
      at least one swap succeeded and the balance re-check did not throw. */
  function Verdict(planCount: nat, successCount: nat, recheckOk: bool): bool {
    planCount == 0 || (successCount > 0 && recheckOk)
  }

  /** The first loop's body for one requirement: whether the wrap is tried,
      and the swap plan made, if any. */
  method PlanRequirement(r: Requirement, balances: Balances, native: Option<nat>, deposit: DepositOutcome,
                         estimate: (Token, Token, nat) -> Option<nat>)
    returns (plan: Option<SwapPlan>, wrapTried: bool)
    ensures plan == PlanFor(r, balances, native, deposit, estimate)
    ensures wrapTried == TriesWrap(r, balances)
  {
    plan := None;
    wrapTried := false;
    var current := Current(balances, r.token);
    if r.amount > current {
      var deficit := r.amount - current;
      var covered := false;
      if r.token == WPHRS {
        wrapTried := true;
        covered := WrapSucceeds(r.amount, native, deposit);
      }
      if !covered {
        plan := CreateSwapPlan(r.token, deficit, balances, (s: Token) => estimate(s, r.token, deficit));
      }
    }
  }

  /** One more requirement adds its plan, if any, and decides the wrap flag. */
  lemma SwapPlansStep(reqs: seq<Requirement>, i: nat, balances: Balances, native: Option<nat>,
                      deposit: DepositOutcome, estimate: (Token, Token, nat) -> Option<nat>)
    requires i < |reqs|
    ensures var plan := PlanFor(reqs[i], balances, native, deposit, estimate);
      SwapPlans(reqs[..i + 1], balances, native, deposit, estimate)
      == SwapPlans(reqs[..i], balances, native, deposit, estimate) + (if plan.Some? then [plan.value] else [])
    ensures AnyWrap(reqs[..i + 1], balances) == (AnyWrap(reqs[..i], balances) || TriesWrap(reqs[i], balances))
  {
    assert reqs[..i + 1][..i] == reqs[..i] && reqs[..i + 1][i] == reqs[i];
  }

  /** Whether the first loop tries the wrap for any of the requirements. */
  predicate AnyWrap(reqs: seq<Requirement>, balances: Balances) {
    reqs != [] && (AnyWrap(reqs[..|reqs| - 1], balances) || TriesWrap(reqs[|reqs| - 1], balances))
  }

  lemma {:induction false} AnyWrapMeaning(reqs: seq<Requirement>, balances: Balances)
    ensures AnyWrap(reqs, balances) <==> exists i :: 0 <= i < |reqs| && TriesWrap(reqs[i], balances)
  {
    if reqs != [] {
      var init := reqs[..|reqs| - 1];
      AnyWrapMeaning(init, balances);
      if exists i :: 0 <= i < |init| && TriesWrap(init[i], balances) {
        var i :| 0 <= i < |init| && TriesWrap(init[i], balances);
        assert reqs[i] == init[i];
      }
      if exists i :: 0 <= i < |reqs| && TriesWrap(reqs[i], balances) {
        var i :| 0 <= i < |reqs| && TriesWrap(reqs[i], balances);
        if i < |init| {
          assert init[i] == reqs[i];
        }
      }
    }
  }

  /** The first loop: walk the requirements, trying the wrap for short WPHRS
      and collecting swap plans. */
  method CollectSwapPlans(reqs: seq<Requirement>, balances: Balances, native: Option<nat>,
                          deposit: DepositOutcome, estimate: (Token, Token, nat) -> Option<nat>)
    returns (plans: seq<SwapPlan>, wrapTried: bool)
    ensures plans == SwapPlans(reqs, balances, native, deposit, estimate)
    ensures wrapTried <==> exists i :: 0 <= i < |reqs| && TriesWrap(reqs[i], balances)
  {
    plans := [];
    wrapTried := false;
    for i := 0 to |reqs|
      invariant plans == SwapPlans(reqs[..i], balances, native, deposit, estimate)
      invariant wrapTried == AnyWrap(reqs[..i], balances)
    {
      SwapPlansStep(reqs, i, balances, native, deposit, estimate);
      var plan, tried := PlanRequirement(reqs[i], balances, native, deposit, estimate);
      if plan.Some? {
        plans := plans + [plan.value];
      }
      wrapTried := wrapTried || tried;
    }
    assert reqs[..|reqs|] == reqs;
    AnyWrapMeaning(reqs, balances);
  }

  /** `performUniversalIntelligentSwap`: collect the plans, execute each
      (`swapOk[i]` is whether swap i succeeded) and decide. */
  method PerformUniversalIntelligentSwap(reqs: seq<Requirement>, balances: Balances, native: Option<nat>,
                                         deposit: DepositOutcome, estimate: (Token, Token, nat) -> Option<nat>,
                                         swapOk: seq<bool>, recheckOk: bool)
    returns (ok: bool, plans: seq<SwapPlan>, successCount: nat)
    requires |swapOk| >= |reqs|
    ensures plans == SwapPlans(reqs, balances, native, deposit, estimate)
    ensures successCount == CountTrue(swapOk[..|plans|])
    ensures ok == Verdict(|plans|, successCount, recheckOk)
  {
    var wrapTried;
    plans, wrapTried := CollectSwapPlans(reqs, balances, native, deposit, estimate);
    successCount := 0;
    if |plans| == 0 {
      return true, plans, 0;
    }
    for i := 0 to |plans|
      invariant successCount == CountTrue(swapOk[..i])
    {
      assert swapOk[..i + 1][..i] == swapOk[..i];
      if swapOk[i] {
        successCount := successCount + 1;
      }
    }
    ok := successCount > 0 && recheckOk;
  }

  /** A plan serves a requirement: it targets the requirement's token, that
      token is short, the plan carries the whole deficit, and for WPHRS the
      wrap did not succeed. */
  predicate Serves(plan: SwapPlan, r: Requirement, balances: Balances, native: Option<nat>, deposit: DepositOutcome) {
    plan.toToken == r.token && Short(r, balances)
    && plan.targetDeficit == r.amount - Current(balances, r.token)
    && (r.token == WPHRS ==> !WrapSucceeds(r.amount, native, deposit))
  }

  /** Every plan serves one of the requirements. */
  lemma {:induction false} SwapPlansServeShortTokens(reqs: seq<Requirement>, balances: Balances, native: Option<nat>,
                                                     deposit: DepositOutcome, estimate: (Token, Token, nat) -> Option<nat>)
    ensures forall k :: 0 <= k < |SwapPlans(reqs, balances, native, deposit, estimate)| ==>
      exists i :: 0 <= i < |reqs|
        && Serves(SwapPlans(reqs, balances, native, deposit, estimate)[k], reqs[i], balances, native, deposit)
  {
    if reqs != [] {
      var init := reqs[..|reqs| - 1];
      var r := reqs[|reqs| - 1];
      SwapPlansServeShortTokens(init, balances, native, deposit, estimate);
      var plans := SwapPlans(reqs, balances, native, deposit, estimate);
      var before := SwapPlans(init, balances, native, deposit, estimate);
      forall k | 0 <= k < |plans|
        ensures exists i :: 0 <= i < |reqs| && Serves(plans[k], reqs[i], balances, native, deposit)
      {
        if k < |before| {
          assert plans[k] == before[k];
          assert exists i :: 0 <= i < |init| && Serves(before[k], init[i], balances, native, deposit);
          var i :| 0 <= i < |init| && Serves(before[k], init[i], balances, native, deposit);
          assert reqs[i] == init[i];
        } else {
          var deficit := r.amount - Current(balances, r.token);
          CreateSwapPlanCorrect(r.token, deficit, balances, (s: Token) => estimate(s, r.token, deficit));
          assert plans[k] == PlanFor(r, balances, native, deposit, estimate).value;
          assert Serves(plans[k], reqs[|reqs| - 1], balances, native, deposit);
        }
      }
      assert forall k :: 0 <= k < |plans| ==>
        exists i :: 0 <= i < |reqs| && Serves(plans[k], reqs[i], balances, native, deposit);
    } else {
      assert SwapPlans(reqs, balances, native, deposit, estimate) == [];
    }
  }

  /** A requirement already covered by the balance yields no plan, so when
      every token is covered there is nothing to swap and the resolver reports
      success without swapping. */
  lemma {:induction false} NothingShortNoPlans(reqs: seq<Requirement>, balances: Balances, native: Option<nat>,
                                               deposit: DepositOutcome, estimate: (Token, Token, nat) -> Option<nat>)
    requires forall i :: 0 <= i < |reqs| ==> !Short(reqs[i], balances)
    ensures SwapPlans(reqs, balances, native, deposit, estimate) == []
  {
    if reqs != [] {
      NothingShortNoPlans(reqs[..|reqs| - 1], balances, native, deposit, estimate);
      assert !Short(reqs[|reqs| - 1], balances);
    }
  }

  /** The verdict is true exactly when no plan was made, or some swap
      succeeded and the re-check went through. */
  lemma VerdictMeaning(plans: seq<SwapPlan>, swapOk: seq<bool>, recheckOk: bool)
    requires |swapOk| >= |plans|
    ensures Verdict(|plans|, CountTrue(swapOk[..|plans|]), recheckOk) <==>
      plans == [] || (recheckOk && exists i :: 0 <= i < |plans| && swapOk[i])
  {
    CountTruePositive(swapOk[..|plans|]);
    if exists i :: 0 <= i < |plans| && swapOk[i] {
      var i :| 0 <= i < |plans| && swapOk[i];
      assert swapOk[..|plans|][i];
    }
  }
}
