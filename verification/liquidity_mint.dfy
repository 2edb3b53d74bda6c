/** Building and confirming one mint (`addLiquidityWithAllocation`): the
    full-range ticks of `calculateTicks`, the ordering of the two tokens by
    lower-case address, and the three-attempt confirmation loop. Approval,
    submission and each wait for the receipt are inputs. */
module LiquidityMint {
  import opened LiquidityCatalog
  import opened LiquidityAllocation
  import opened Wrappers

  // ----- calculateTicks -----

  /** The full-range tick magnitude chosen by fee tier. */
  function FullRangeTick(fee: nat): (t: int)
    ensures t > 0
  {
    if fee == 500 then 887270
    else if fee == 100 then 887270
    else if fee == 3000 then 887220
    else if fee == 10000 then 887200
    else 887270
  }

  /** `pool.tickSpacing || 10`: a zero spacing falls back to 10. */
  function Spacing(p: Pool): (s: nat)
    ensures s > 0
  {
    if p.tickSpacing == 0 then 10 else p.tickSpacing
  }

  /** `Math.floor(a / b)` for a positive divisor. */
  function FloorDiv(a: int, b: int): int
    requires b > 0
  {
    a / b
  }

  /** `Math.ceil(a / b)` for a positive divisor: the quotient, plus one when
      the division leaves a remainder. */
  function CeilDiv(a: int, b: int): int
    requires b > 0
  {
    if a % b == 0 then a / b else a / b + 1
  }

  datatype Ticks = Ticks(lower: int, upper: int)

  /** `calculateTicks(pool)`: the fee tier's full range, the lower end rounded
      down and the upper end rounded up to a multiple of the spacing. */
  function CalculateTicks(p: Pool): (ticks: Ticks)
    ensures ticks.lower <= -FullRangeTick(p.fee) < FullRangeTick(p.fee) <= ticks.upper
  {
    var t := FullRangeTick(p.fee);
    var s := Spacing(p);
    FloorOfNegation(t, s);
    CeilMultiple(t, s);
    assert FloorDiv(-t, s) * s == -(CeilDiv(t, s) * s);
    Ticks(FloorDiv(-t, s) * s, CeilDiv(t, s) * s)
  }

  lemma MulAtLeast(d: int, b: int)
    requires d >= 1 && b > 0
    ensures d * b >= b
    decreases d
  {
    if d > 1 {
      MulAtLeast(d - 1, b);
      assert d * b == (d - 1) * b + b;
    }
  }

  /** Euclidean division is determined by quotient and remainder. */
  lemma DivUnique(a: int, b: int, q: int, r: int)
    requires b > 0 && a == q * b + r && 0 <= r < b
    ensures a / b == q && a % b == r
  {
    var q', r' := a / b, a % b;
    assert a == q' * b + r';
    if q' < q {
      assert (q - q') * b == q * b - q' * b;
      MulAtLeast(q - q', b);
    } else if q < q' {
      assert (q' - q) * b == q' * b - q * b;
      MulAtLeast(q' - q, b);
    }
  }

  lemma FloorOfNegation(t: int, s: int)
    requires t >= 0 && s > 0
    ensures FloorDiv(-t, s) == -CeilDiv(t, s)
  {
    var q, r := t / s, t % s;
    assert t == q * s + r && 0 <= r < s;
    if r == 0 {
      assert -t == (-q) * s + 0;
      DivUnique(-t, s, -q, 0);
    } else {
      assert -t == (-q - 1) * s + (s - r);
      DivUnique(-t, s, -q - 1, s - r);
    }
  }

  /** Rounding up to a multiple of the spacing lands on a multiple at or
      above the value and less than one spacing above it. */
  lemma CeilMultiple(t: int, s: int)
    requires t >= 0 && s > 0
    ensures (CeilDiv(t, s) * s) % s == 0 && ((-CeilDiv(t, s)) * s) % s == 0
    ensures t <= CeilDiv(t, s) * s < t + s
  {
    var q, r := t / s, t % s;
    assert t == q * s + r;
    var c := CeilDiv(t, s);
    DivUnique(c * s, s, c, 0);
    DivUnique((-c) * s, s, -c, 0);
    if r != 0 {
      assert c * s == q * s + s;
    }
  }

  /** The range is symmetric, both ends are multiples of the spacing, and it
      covers the fee tier's full range by less than one spacing on each side. */
  lemma TicksCorrect(p: Pool)
    ensures var ticks := CalculateTicks(p);
      ticks.lower == -ticks.upper
      && ticks.lower % Spacing(p) == 0 && ticks.upper % Spacing(p) == 0
      && FullRangeTick(p.fee) <= ticks.upper < FullRangeTick(p.fee) + Spacing(p)
  {
    var t, s := FullRangeTick(p.fee), Spacing(p);
    FloorOfNegation(t, s);
    CeilMultiple(t, s);
    assert FloorDiv(-t, s) * s == (-CeilDiv(t, s)) * s;
  }

  /** For every catalog pool the range is exactly the fee tier's full range,
      inside the protocol limit of 887272. */
  lemma CatalogTicks()
    ensures forall i :: 0 <= i < |Pools| ==>
      CalculateTicks(Pools[i]) == Ticks(-FullRangeTick(Pools[i].fee), FullRangeTick(Pools[i].fee))
      && FullRangeTick(Pools[i].fee) <= 887272
  {
    forall i | 0 <= i < |Pools|
      ensures CalculateTicks(Pools[i]) == Ticks(-FullRangeTick(Pools[i].fee), FullRangeTick(Pools[i].fee))
    {
      var p := Pools[i];
      TicksCorrect(p);
      var t := FullRangeTick(p.fee);
      assert t % Spacing(p) == 0;
      assert CeilDiv(t, Spacing(p)) * Spacing(p) == t;
    }
  }

  // ----- token order -----

  function LowerChar(c: char): char {
    if 'A' <= c <= 'Z' then (c as int + 32) as char else c
  }

  /** `toLowerCase` on ASCII letters. */
  function ToLower(s: string): (r: string)
    ensures |r| == |s| && forall i :: 0 <= i < |s| ==> r[i] == LowerChar(s[i])
  {
    seq(|s|, i requires 0 <= i < |s| => LowerChar(s[i]))
  }

  /** JavaScript `<` on strings: compare character codes from the start; a
      proper prefix is smaller. */
  predicate LexLess(a: string, b: string) {
    if a == [] then b != []
    else if b == [] then false
    else if a[0] != b[0] then a[0] < b[0]
    else LexLess(a[1..], b[1..])
  }

  lemma {:induction false} LexTotal(a: string, b: string)
    ensures a != b ==> (LexLess(a, b) <==> !LexLess(b, a))
    ensures !LexLess(a, a)
  {
    if a != [] {
      LexTotal(a[1..], a[1..]);
    }
    if a != [] && b != [] {
      LexTotal(a[1..], b[1..]);
      if a[0] == b[0] && a != b {
        assert a == [a[0]] + a[1..] && b == [b[0]] + b[1..];
      }
    }
  }

  /** Strings agreeing before position k and smaller at k compare smaller. */
  lemma {:induction false} LexLessAt(a: string, b: string, k: nat)
    requires k < |a| && k < |b| && a[..k] == b[..k] && a[k] < b[k]
    ensures LexLess(a, b)
  {
    if k > 0 {
      assert a[0] == a[..k][0] == b[..k][0] == b[0];
      assert a[1..][..k - 1] == a[..k][1..] == b[..k][1..] == b[1..][..k - 1];
      LexLessAt(a[1..], b[1..], k - 1);
    }
  }

  /** The two token slots of the mint call, each with its amount. */
  datatype MintOrder = MintOrder(token0: string, token1: string, amount0: nat, amount1: nat)

  /** The ternaries that put the token with the smaller lower-case address
      first; each amount goes with its token. */
  function OrderForMint(address0: string, address1: string, amount0: nat, amount1: nat): (m: MintOrder)
    ensures m == MintOrder(address0, address1, amount0, amount1) || m == MintOrder(address1, address0, amount1, amount0)
  {
    if LexLess(ToLower(address0), ToLower(address1)) then MintOrder(address0, address1, amount0, amount1)
    else MintOrder(address1, address0, amount1, amount0)
  }

  /** The mint order holds the same two tokens, each amount still with its own
      token, and the first slot has the smaller lower-case address. */
  lemma OrderForMintCorrect(address0: string, address1: string, amount0: nat, amount1: nat)
    requires ToLower(address0) != ToLower(address1)
    ensures var m := OrderForMint(address0, address1, amount0, amount1);
      ((m.token0, m.amount0, m.token1, m.amount1) == (address0, amount0, address1, amount1)
       || (m.token0, m.amount0, m.token1, m.amount1) == (address1, amount1, address0, amount0))
      && LexLess(ToLower(m.token0), ToLower(m.token1))
  {
    LexTotal(ToLower(address0), ToLower(address1));
  }

  /** Lower-case USDC < lower-case WPHRS: they first differ at the fourth character. */
  lemma UsdcBeforeWphrs()
    ensures LexLess(ToLower(Address(USDC)), ToLower(Address(WPHRS)))
  {
    var usdc, wphrs := ToLower(Address(USDC)), ToLower(Address(WPHRS));
    assert usdc[0] == wphrs[0] && usdc[1] == wphrs[1] && usdc[2] == wphrs[2] && usdc[3] < wphrs[3];
    assert usdc[..3] == wphrs[..3];
    LexLessAt(usdc, wphrs, 3);
  }

  /** Lower-case USDC < lower-case USDT: they first differ at the third character. */
  lemma UsdcBeforeUsdt()
    ensures LexLess(ToLower(Address(USDC)), ToLower(Address(USDT)))
  {
    var usdc, usdt := ToLower(Address(USDC)), ToLower(Address(USDT));
    assert usdc[0] == usdt[0] && usdc[1] == usdt[1] && usdc[2] < usdt[2];
    assert usdc[..2] == usdt[..2];
    LexLessAt(usdc, usdt, 2);
  }

  /** Lower-case WPHRS < lower-case USDT: they first differ at the third character. */
  lemma WphrsBeforeUsdt()
    ensures LexLess(ToLower(Address(WPHRS)), ToLower(Address(USDT)))
    ensures !LexLess(ToLower(Address(USDT)), ToLower(Address(WPHRS)))
  {
    var wphrs, usdt := ToLower(Address(WPHRS)), ToLower(Address(USDT));
    assert wphrs[0] == usdt[0] && wphrs[1] == usdt[1] && wphrs[2] < usdt[2];
    assert wphrs[..2] == usdt[..2];
    LexLessAt(wphrs, usdt, 2);
    LexTotal(usdt, wphrs);
  }

  /** In the catalog, USDC precedes both others and WPHRS precedes USDT, so the
      USDT/WPHRS pools are minted with their tokens and amounts swapped. */
  lemma CatalogMintOrder(amount0: nat, amount1: nat)
    ensures OrderForMint(Address(USDC), Address(WPHRS), amount0, amount1)
         == MintOrder(Address(USDC), Address(WPHRS), amount0, amount1)
    ensures OrderForMint(Address(USDC), Address(USDT), amount0, amount1)
         == MintOrder(Address(USDC), Address(USDT), amount0, amount1)
    ensures OrderForMint(Address(USDT), Address(WPHRS), amount0, amount1)
         == MintOrder(Address(WPHRS), Address(USDT), amount1, amount0)
  {
    UsdcBeforeWphrs();
    UsdcBeforeUsdt();
    WphrsBeforeUsdt();
  }

  /** The parameters of the `mint` call that depend on the allocation. */
  datatype MintParams = MintParams(token0: string, token1: string, fee: nat, tickLower: int, tickUpper: int,
                                   amount0Desired: nat, amount1Desired: nat, amount0Min: nat, amount1Min: nat)

  function MintParamsFor(a: Allocation): (params: MintParams)
    ensures params.fee == a.pool.fee && params.amount0Min == 0 && params.amount1Min == 0
    ensures (params.token0, params.amount0Desired, params.token1, params.amount1Desired)
              == (Address(a.pool.token0), a.amount0, Address(a.pool.token1), a.amount1)
         || (params.token0, params.amount0Desired, params.token1, params.amount1Desired)
              == (Address(a.pool.token1), a.amount1, Address(a.pool.token0), a.amount0)
    ensures params.tickLower <= -FullRangeTick(a.pool.fee) < FullRangeTick(a.pool.fee) <= params.tickUpper
  {
    var order := OrderForMint(Address(a.pool.token0), Address(a.pool.token1), a.amount0, a.amount1);
    var ticks := CalculateTicks(a.pool);
    MintParams(order.token0, order.token1, a.pool.fee, ticks.lower, ticks.upper, order.amount0, order.amount1, 0, 0)
  }

  // ----- confirmation -----

  /** What one wait for the receipt gives: a receipt with a status, a timeout,
      or another error. */
  datatype WaitOutcome = Receipt(status: int) | Timeout | WaitError

  /** The loop's outcome: a receipt, or an error thrown out of the loop. */
  datatype Confirmation = Confirmed(status: int) | Thrown

  const MaxAttempts: nat := 3

  /** The loop from attempt `attempts` on, `waits[k]` being attempt k's result. */
  function ConfirmFrom(waits: seq<WaitOutcome>, attempts: nat): Confirmation
    requires |waits| >= MaxAttempts
    decreases MaxAttempts - attempts
  {
    if attempts >= MaxAttempts then Thrown
    else match waits[attempts]
      case Receipt(status) => Confirmed(status)
      case WaitError => Thrown
      case Timeout => if attempts + 1 < MaxAttempts then ConfirmFrom(waits, attempts + 1) else Thrown
  }

  /** The number of waits the loop performs from attempt `attempts` on. */
  function WaitsFrom(waits: seq<WaitOutcome>, attempts: nat): nat
    requires |waits| >= MaxAttempts
    decreases MaxAttempts - attempts
  {
    if attempts >= MaxAttempts then 0
    else if waits[attempts].Timeout? && attempts + 1 < MaxAttempts then 1 + WaitsFrom(waits, attempts + 1)
    else 1
  }

  /** The confirmation `while` loop. */
  method AwaitConfirmation(waits: seq<WaitOutcome>) returns (c: Confirmation, calls: nat)
    requires |waits| >= MaxAttempts
    ensures c == ConfirmFrom(waits, 0)
    ensures calls == WaitsFrom(waits, 0)
  {
    var attempts := 0;
    calls := 0;
    while attempts < MaxAttempts
      invariant attempts <= MaxAttempts && calls == attempts
      invariant ConfirmFrom(waits, attempts) == ConfirmFrom(waits, 0)
      invariant calls + WaitsFrom(waits, attempts) == WaitsFrom(waits, 0)
      decreases MaxAttempts - attempts
    {
      var outcome := waits[attempts];
      calls := calls + 1;
      match outcome {
        case Receipt(status) =>
          return Confirmed(status), calls;
        case WaitError =>
          return Thrown, calls;
        case Timeout =>
          attempts := attempts + 1;
          if attempts < MaxAttempts {
            continue;
          }
          return Thrown, calls;
      }
    }
    c := Thrown;
  }

  /** At most three waits happen, and a non-timeout error ends the loop after
      its own attempt. */
  lemma {:induction false} WaitsBounded(waits: seq<WaitOutcome>, attempts: nat)
    requires |waits| >= MaxAttempts && attempts <= MaxAttempts
    ensures WaitsFrom(waits, attempts) <= MaxAttempts - attempts
    ensures attempts < MaxAttempts && waits[attempts].WaitError? ==> WaitsFrom(waits, attempts) == 1
    decreases MaxAttempts - attempts
  {
    if attempts < MaxAttempts && waits[attempts].Timeout? && attempts + 1 < MaxAttempts {
      WaitsBounded(waits, attempts + 1);
    }
  }

  /** The loop yields a receipt exactly when some attempt among the three
      returns one and every earlier attempt timed out. */
  lemma ConfirmedMeans(waits: seq<WaitOutcome>, status: int)
    requires |waits| >= MaxAttempts
    ensures ConfirmFrom(waits, 0) == Confirmed(status) <==>
      exists i :: 0 <= i < MaxAttempts && waits[i] == Receipt(status)
                  && forall j :: 0 <= j < i ==> waits[j] == Timeout
  {
    if exists i :: 0 <= i < MaxAttempts && waits[i] == Receipt(status)
                   && forall j :: 0 <= j < i ==> waits[j] == Timeout {
      var i :| 0 <= i < MaxAttempts && waits[i] == Receipt(status)
               && forall j :: 0 <= j < i ==> waits[j] == Timeout;
      if i >= 1 { assert waits[0] == Timeout; }
      if i >= 2 { assert waits[1] == Timeout; }
    }
  }

  /** Two timeouts followed by a receipt with status 1 confirm after three waits. */
  lemma TwoTimeoutsThenReceipt()
    ensures ConfirmFrom([Timeout, Timeout, Receipt(1)], 0) == Confirmed(1)
    ensures WaitsFrom([Timeout, Timeout, Receipt(1)], 0) == 3
  {
  }

  // ----- addLiquidityWithAllocation -----

  /** The result recorded for one pool: success carries the mint's hash. */
  datatype PoolResult = PoolResult(success: bool, txHash: Option<string>)

  /** What the chain does with one pool's mint: whether the approvals went
      through, the hash of the sent mint transaction (None when sending
      threw), and the outcome of each confirmation attempt. */
  datatype MintAttempt = MintAttempt(approved: bool, submitted: Option<string>, waits: seq<WaitOutcome>)

  /** The result `addLiquidityWithAllocation` returns for an attempt. */
  function MintResult(m: MintAttempt): PoolResult
    requires |m.waits| >= MaxAttempts
  {
    if m.approved && m.submitted.Some? && ConfirmFrom(m.waits, 0) == Confirmed(1) then PoolResult(true, m.submitted)
    else PoolResult(false, None)
  }

  /** A pool's mint succeeds exactly when the approvals and the send went
      through and, within three attempts, a receipt of status 1 arrived with
      only timeouts before it; a success carries the mint's hash and a failure
      none. */
  lemma MintResultMeans(m: MintAttempt)
    requires |m.waits| >= MaxAttempts
    ensures MintResult(m).success <==>
      m.approved && m.submitted.Some? &&
      exists i :: 0 <= i < MaxAttempts && m.waits[i] == Receipt(1)
                  && forall j :: 0 <= j < i ==> m.waits[j] == Timeout
    ensures MintResult(m).txHash == if MintResult(m).success then m.submitted else None
  {
    ConfirmedMeans(m.waits, 1);
  }

  /** `addLiquidityWithAllocation(allocation)`: compute the ticks, approve,
      order the tokens, send the mint and wait for it. Every error is caught
      and becomes a failure result. */
  method AddLiquidityWithAllocation(a: Allocation, m: MintAttempt) returns (result: PoolResult, params: MintParams)
    requires |m.waits| >= MaxAttempts
    ensures params == MintParamsFor(a)
    ensures result == MintResult(m)
  {
    var ticks := CalculateTicks(a.pool);
    var order := OrderForMint(Address(a.pool.token0), Address(a.pool.token1), a.amount0, a.amount1);
    params := MintParams(order.token0, order.token1, a.pool.fee, ticks.lower, ticks.upper,
                         order.amount0, order.amount1, 0, 0);
    if !m.approved || m.submitted.None? {
      return PoolResult(false, None), params;
    }
    var confirmation, _ := AwaitConfirmation(m.waits);
    if confirmation == Confirmed(1) {
      result := PoolResult(true, m.submitted);
    } else {
      result := PoolResult(false, None);
    }
  }
}
