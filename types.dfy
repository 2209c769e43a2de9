/** The value types of the portfolio: accounts, assets, badges, LP positions and metrics. */
module Types {
  import opened Numeric

  /** An optional value (Rust's `Option`). */
  datatype Option<T> = None | Some(value: T)

  /** The value stored at `key`, or `default` when the key is absent (`Map::get(..).unwrap_or(..)`). */
  function GetOr<K, V>(m: map<K, V>, key: K, default: V): V
  {
    if key in m then m[key] else default
  }

  /** The value stored at `key`, if any (`Map::get`). */
  function Lookup<K, V>(m: map<K, V>, key: K): Option<V>
  {
    if key in m then Some(m[key]) else None
  }

  /** An account identifier, authenticated outside the model; only compared for equality. */
  type Address(==, !new)

  /** A symbol is a short string naming a token. */
  type Symbol = string

  /** The native asset or a named custom token; equality is by tag and name. */
  datatype Asset = XLM | Custom(symbol: Symbol)

  /** The second reserve asset of the single pool. */
  const USDC_SIM_SYMBOL: Symbol := "USDCSIM"
  const USDC_SIM: Asset := Custom(USDC_SIM_SYMBOL)

  /** The two token symbols that `try_swap` accepts (note the hyphen, unlike the pool's symbol). */
  const XLM_SYMBOL: Symbol := "XLM"
  const TRY_SWAP_USDC_SYMBOL: Symbol := "USDC-SIM"

  /** Achievements, in declaration order. */
  datatype Badge = FirstTrade | Trader | WealthBuilder | LiquidityProvider | Diversifier | Consistency

  /** The badge kinds in the order `get_user_badges` and `get_badge_progress` visit them. */
  const AllBadges: seq<Badge> := [FirstTrade, Trader, WealthBuilder, LiquidityProvider, Diversifier, Consistency]

  /** Position of a badge in declaration order. */
  function BadgeRank(b: Badge): (k: nat)
    ensures k < |AllBadges| && AllBadges[k] == b
  {
    match b
    case FirstTrade => 0
    case Trader => 1
    case WealthBuilder => 2
    case LiquidityProvider => 3
    case Diversifier => 4
    case Consistency => 5
  }

  /** The rank of the badge at position i of the declaration order is i. */
  lemma ListedBadgeRank(i: nat)
    requires i < |AllBadges|
    ensures BadgeRank(AllBadges[i]) == i
  {
    if i == 0 {
    } else if i == 1 {
    } else if i == 2 {
    } else if i == 3 {
    } else if i == 4 {
    } else {
      assert i == 5;
    }
  }

  /** A liquidity provider's record: amounts deposited of each reserve asset and LP tokens held. */
  datatype LPPosition = LPPosition(lpAddress: Address, xlmDeposited: i128, usdcDeposited: i128, lpTokensMinted: i128)

  /** Aggregate counters, each a `u32` that saturates. */
  datatype Metrics = Metrics(tradesExecuted: u32, failedOrders: u32, balancesUpdated: u32)

  /** The asset a token symbol names at the contract's entry points: "XLM" is the native asset,
      every other symbol a custom token. */
  function AssetOfSymbol(token: Symbol): (a: Asset)
    ensures a.XLM? <==> token == XLM_SYMBOL
    ensures a.Custom? ==> a.symbol == token
  {
    if token == XLM_SYMBOL then XLM else Custom(token)
  }

  /** A leaderboard entry: an account and its PnL when last ranked. */
  type Entry = (Address, i128)
}
