/** The static token table and pool catalog of the liquidity module. All amounts
    are in token base units (the integer a `parseUnits` call produces). */
module LiquidityCatalog {

  /** The three tokens of the token table; identity is the symbol. */
  datatype Token = USDC | USDT | WPHRS

  /** One candidate pool: its token pair, fee tier, base amounts of each token,
      tick spacing and priority weight. */
  datatype Pool = Pool(token0: Token, token1: Token, fee: nat, base0: nat, base1: nat,
                       tickSpacing: nat, weight: nat)

  /** A balance snapshot: raw balance per token; a token may be absent. */
  type Balances = map<Token, nat>

  /** One whole token, `parseUnits("1", decimals)`. */
  function Unit(t: Token): (u: nat)
    ensures u > 0
  {
    match t
    case USDC => 1_000_000
    case USDT => 1_000_000
    case WPHRS => 1_000_000_000_000_000_000
  }

  /** The on-chain address of a token, as written in the token table. */
  function Address(t: Token): string {
    match t
    case USDC => "0x72df0bcd7276f2dfbac900d1ce63c272c4bccced"
    case USDT => "0xd4071393f8716661958f766df660033b3d35fd29"
    case WPHRS => "0x76aaada469d23216be5f7c596fa25f282ff9b364"
  }

  /** The nine pools in catalog order; base amounts converted to base units
      (8 USDC = 8_000_000, 0.005 WPHRS = 5_000_000_000_000_000, ...). */
  const Pools: seq<Pool> := [
    Pool(USDC, WPHRS, 500, 8_000_000, 5_000_000_000_000_000, 10, 3),
    Pool(USDC, WPHRS, 3000, 6_000_000, 4_000_000_000_000_000, 60, 2),
    Pool(USDC, WPHRS, 10000, 4_000_000, 3_000_000_000_000_000, 200, 1),
    Pool(USDT, WPHRS, 500, 8_000_000, 5_000_000_000_000_000, 10, 3),
    Pool(USDT, WPHRS, 3000, 6_000_000, 4_000_000_000_000_000, 60, 2),
    Pool(USDT, WPHRS, 10000, 4_000_000, 3_000_000_000_000_000, 200, 1),
    Pool(USDC, USDT, 500, 5_000_000, 5_000_000, 10, 2),
    Pool(USDC, USDT, 3000, 4_000_000, 4_000_000, 60, 1),
    Pool(USDC, USDT, 10000, 3_000_000, 3_000_000, 200, 1)
  ]

  /** A pool names two different tokens. Every catalog pool does. */
  predicate DistinctTokens(p: Pool) {
    p.token0 != p.token1
  }

  lemma CatalogPoolsDistinct()
    ensures forall i :: 0 <= i < |Pools| ==> DistinctTokens(Pools[i])
  {
  }

  /** The three tokens are the only ones. */
  lemma TokenCases(t: Token)
    ensures t == USDC || t == USDT || t == WPHRS
  {
  }
}
