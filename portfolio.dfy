/** The contract's single aggregate, `Portfolio`: per-account balances and PnL, trade counters
    and badges, aggregate statistics and the leaderboard, the liquidity pool's reserves and LP
    positions. Each method updates the fields it names in place. A Rust `assert!`, an
    arithmetic overflow or an `unwrap` on nothing panics, which aborts the whole contract call
    and discards every change; a method models that by returning `ok == false` with its fields
    unchanged. */
module PortfolioModel {
  import opened Numeric
  import opened Types
  import opened Invariants
  import opened Lists
  import opened Leaderboard

  /** The balance map after adding `delta` to the entry at `key`, an absent entry counting as 0. */
  function Adjusted(m: map<(Address, Asset), i128>, key: (Address, Asset), delta: int): (r: map<(Address, Asset), i128>)
    requires IsI128(GetOr(m, key, 0) + delta)
  {
    m[key := GetOr(m, key, 0) + delta]
  }

  /** The total of a list of amounts. */
  function Sum(xs: seq<int>): int
  {
    if xs == [] then 0 else xs[0] + Sum(xs[1..])
  }

  lemma SumOfNonNegatives(xs: seq<int>)
    requires forall i :: 0 <= i < |xs| ==> xs[i] >= 0
    ensures Sum(xs) >= 0
  {
  }

  /** The balance map after successful `mint`s of each amount in turn to one key. */
  function MintedInTurn(m: map<(Address, Asset), i128>, key: (Address, Asset), amounts: seq<int>): map<(Address, Asset), i128>
    requires forall i :: 0 <= i < |amounts| ==> amounts[i] >= 0
    requires GetOr(m, key, 0) + Sum(amounts) <= I128_MAX
    decreases |amounts|
  {
    if amounts == [] then m
    else
      SumOfNonNegatives(amounts[1..]);
      MintedInTurn(Adjusted(m, key, amounts[0]), key, amounts[1..])
  }

  /** A run of mints to one key raises its balance by the sum of the amounts (from 0 when the
      key was never touched) and leaves every other key as it was. */
  lemma {:induction false} MintsAccumulate(m: map<(Address, Asset), i128>, key: (Address, Asset), amounts: seq<int>)
    requires forall i :: 0 <= i < |amounts| ==> amounts[i] >= 0
    requires GetOr(m, key, 0) + Sum(amounts) <= I128_MAX
    ensures var r := MintedInTurn(m, key, amounts);
            && GetOr(r, key, 0) == GetOr(m, key, 0) + Sum(amounts)
            && forall k :: k != key ==> GetOr(r, k, 0) == GetOr(m, k, 0)
    decreases |amounts|
  {
    if amounts != [] {
      SumOfNonNegatives(amounts[1..]);
      MintsAccumulate(Adjusted(m, key, amounts[0]), key, amounts[1..]);
    }
  }

  /** `metrics.balances_updated.saturating_add(1)`; the other counters keep their values. */
  function CountBalanceUpdate(m: Metrics): (r: Metrics)
    ensures r.tradesExecuted == m.tradesExecuted && r.failedOrders == m.failedOrders
    ensures m.balancesUpdated < U32_MAX ==> r.balancesUpdated == m.balancesUpdated + 1
  {
    m.(balancesUpdated := SatAddU32(m.balancesUpdated, 1))
  }

  /** The WealthBuilder rule of `check_and_award_badges`: an initial balance was recorded and
      the PnL (the contract's stand-in for the account's total balance) is at least ten times it. */
  predicate EarnsWealthBuilder(pnl: int, initial: int)
  {
    initial > 0 && pnl >= initial * 10
  }

  /** The WealthBuilder progress of `get_badge_progress` as the contract computes it: the PnL
      divided (toward zero) by the recorded initial balance, or by 1 when none is recorded, then
      cast to `u32` by keeping the low 32 bits. */
  function WealthMultiplierAsWritten(pnl: int, recordedInitial: Option<int>): u32
  {
    var initial := if recordedInitial.Some? then recordedInitial.value else 1;
    if initial > 0 then I128AsU32(TruncDiv(pnl, initial)) else 0
  }

  /** The progress as written disagrees with the award rule in both directions of error: a
      loss of 20 on an initial balance of 10 shows a multiplier of 4294967294, and a PnL of 10
      with no recorded initial balance shows 10; neither account earns the badge. A gain of
      2^32 times the initial balance earns it but shows 0. */
  lemma WealthProgressAsWrittenDisagreesWithAward()
    ensures WealthMultiplierAsWritten(-20, Some(10)) == 4294967294 && !EarnsWealthBuilder(-20, 10)
    ensures WealthMultiplierAsWritten(10, None) >= 10 && !EarnsWealthBuilder(10, 0)
    ensures WealthMultiplierAsWritten(TWO_32 * 10, Some(10)) == 0 && EarnsWealthBuilder(TWO_32 * 10, 10)
  {
  }

  /** Where the quotient is a non-negative value that fits in u32, the multiplier as written
      reaches 10 exactly when the award rule holds. */
  lemma WealthMultiplierAsWrittenInRange(pnl: int, initial: int)
    requires initial > 0 && pnl >= 0 && pnl / initial <= U32_MAX
    ensures WealthMultiplierAsWritten(pnl, Some(initial)) == pnl / initial
    ensures WealthMultiplierAsWritten(pnl, Some(initial)) >= 10 <==> EarnsWealthBuilder(pnl, initial)
  {
    var q := pnl / initial;
    assert TruncDiv(pnl, initial) == q;
    DivAtLeast(pnl, initial, 0);
    assert I128AsU32(q) == q;
    assert WealthMultiplierAsWritten(pnl, Some(initial)) == q;
    DivAtLeast(pnl, initial, 10);
  }

  /** The corrected WealthBuilder progress: the truncated quotient of PnL by the recorded
      initial balance, clamped into the `u32` range, and 0 when no initial balance is recorded. */
  function WealthMultiplier(pnl: int, recordedInitial: Option<int>): u32
  {
    match recordedInitial
    case None => 0
    case Some(initial) =>
      if initial > 0 then
        var q := TruncDiv(pnl, initial);
        if q < 0 then 0 else if q > U32_MAX then U32_MAX else q
      else 0
  }

  /** The reported multiplier reaches the threshold of 10 exactly when the award rule holds. */
  lemma WealthMultiplierMatchesAward(pnl: int, recordedInitial: Option<int>)
    requires recordedInitial.Some? ==> recordedInitial.value > 0
    ensures var initial := if recordedInitial.Some? then recordedInitial.value else 0;
            WealthMultiplier(pnl, recordedInitial) >= 10 <==> EarnsWealthBuilder(pnl, initial)
  {
    if recordedInitial.Some? {
      var initial := recordedInitial.value;
      if pnl >= 0 {
        DivAtLeast(pnl, initial, 10);
      } else {
        MulLe(0, 10, initial);
      }
    }
  }

  /** `format_pair_helper`: the key under which a traded pair is remembered. */
  function FormatPair(fromToken: Symbol, toToken: Symbol): Symbol
  {
    fromToken
  }

  /** The pair key is the source symbol alone: trades from one token to two different tokens
      are remembered as the same pair, and trades in opposite directions as different pairs. */
  lemma PairKeyIsSourceSymbol(fromToken: Symbol, toToken: Symbol, otherTo: Symbol)
    ensures FormatPair(fromToken, toToken) == FormatPair(fromToken, otherTo) == fromToken
    ensures fromToken != toToken ==> FormatPair(fromToken, toToken) != FormatPair(toToken, fromToken)
  {
  }

  /** An account's balance of an asset in a balance map, 0 when never touched. */
  function BalanceIn(balances: map<(Address, Asset), i128>, token: Asset, user: Address): i128
  {
    GetOr(balances, (user, token), 0)
  }

  /** No balance is negative. */
  ghost predicate BalancesNonNegative(balances: map<(Address, Asset), i128>)
  {
    forall k :: k in balances ==> balances[k] >= 0
  }

  /** A balance adjusted to a non-negative value keeps every balance non-negative. */
  lemma AdjustedStaysNonNegative(m: map<(Address, Asset), i128>, key: (Address, Asset), delta: int)
    requires BalancesNonNegative(m) && 0 <= GetOr(m, key, 0) + delta <= I128_MAX
    ensures BalancesNonNegative(Adjusted(m, key, delta))
  {
  }

  /** The balances after `transfer_asset`'s debit of `fromToken` and credit of `toToken`. */
  function Transferred(m: map<(Address, Asset), i128>, user: Address, fromToken: Asset, toToken: Asset, amount: int): map<(Address, Asset), i128>
    requires 0 < amount <= BalanceIn(m, fromToken, user)
    requires fromToken == toToken || BalanceIn(m, toToken, user) + amount <= I128_MAX
  {
    var debited := Adjusted(m, (user, fromToken), -amount);
    assert GetOr(debited, (user, toToken), 0) == if fromToken == toToken then BalanceIn(m, fromToken, user) - amount else BalanceIn(m, toToken, user);
    Adjusted(debited, (user, toToken), amount)
  }

  /** A transfer between two different assets moves exactly `amount` from one balance to the
      other, so their sum is unchanged; a transfer from an asset to itself changes nothing;
      no other balance moves, and no balance becomes negative. */
  lemma TransferMovesAmount(m: map<(Address, Asset), i128>, user: Address, fromToken: Asset, toToken: Asset, amount: int)
    requires 0 < amount <= BalanceIn(m, fromToken, user)
    requires fromToken == toToken || BalanceIn(m, toToken, user) + amount <= I128_MAX
    ensures var r := Transferred(m, user, fromToken, toToken, amount);
            && (fromToken != toToken ==>
                  && BalanceIn(r, fromToken, user) == BalanceIn(m, fromToken, user) - amount
                  && BalanceIn(r, toToken, user) == BalanceIn(m, toToken, user) + amount
                  && BalanceIn(r, fromToken, user) + BalanceIn(r, toToken, user)
                     == BalanceIn(m, fromToken, user) + BalanceIn(m, toToken, user))
            && (fromToken == toToken ==> BalanceIn(r, fromToken, user) == BalanceIn(m, fromToken, user))
            && (forall k :: k != (user, fromToken) && k != (user, toToken) ==> GetOr(r, k, 0) == GetOr(m, k, 0))
            && (BalancesNonNegative(m) ==> BalancesNonNegative(r))
  {
    var debited := Adjusted(m, (user, fromToken), -amount);
    if BalancesNonNegative(m) {
      AdjustedStaysNonNegative(m, (user, fromToken), -amount);
      AdjustedStaysNonNegative(debited, (user, toToken), amount);
    }
  }

  /** Whether the badge map grants `badge` to `user`. */
  function Holds(badges: map<(Address, Badge), bool>, user: Address, badge: Badge): bool
  {
    GetOr(badges, (user, badge), false)
  }

  /** `award_badge` applied when `earned` holds. */
  function GrantIf(m: map<(Address, Badge), bool>, user: Address, badge: Badge, earned: bool): map<(Address, Badge), bool>
  {
    if earned then m[(user, badge) := true] else m
  }

  /** The award rules `check_and_award_badges` applies, on an account's trade count, PnL,
      recorded initial balance (0 when none), LP deposit count and numbers of remembered pairs
      and ledger heights. FirstTrade is awarded by `record_trade` instead. */
  predicate EarnedOnCheck(badge: Badge, trades: int, pnl: int, initial: int, lpDeposits: int, pairs: int, heights: int)
  {
    match badge
    case FirstTrade => false
    case Trader => trades >= 10
    case WealthBuilder => EarnsWealthBuilder(pnl, initial)
    case LiquidityProvider => lpDeposits >= 1
    case Diversifier => pairs >= 5
    case Consistency => heights >= 7
  }

  /** The badges of `bs` that the badge map grants to `user`, in the order of `bs`. */
  function HeldAmong(badges: map<(Address, Badge), bool>, user: Address, bs: seq<Badge>): seq<Badge>
  {
    if |bs| == 0 then []
    else
      var last := bs[|bs| - 1];
      HeldAmong(badges, user, bs[..|bs| - 1]) + if Holds(badges, user, last) then [last] else []
  }

  /** Among the first k badges in declaration order, the held ones are listed once each, in
      increasing rank. */
  lemma {:induction false} HeldAmongInRankOrder(badges: map<(Address, Badge), bool>, user: Address, k: nat)
    requires k <= |AllBadges|
    ensures var r := HeldAmong(badges, user, AllBadges[..k]);
            && |r| <= k
            && (forall b :: b in r <==> Holds(badges, user, b) && BadgeRank(b) < k)
            && (forall i, j :: 0 <= i < j < |r| ==> BadgeRank(r[i]) < BadgeRank(r[j]))
  {
    if k > 0 {
      HeldAmongInRankOrder(badges, user, k - 1);
      assert AllBadges[..k][..k - 1] == AllBadges[..k - 1];
      ListedBadgeRank(k - 1);
    }
  }

  /** The five conditional awards of `check_and_award_badges`, in its order. */
  function GrantOnCheck(m: map<(Address, Badge), bool>, user: Address,
                        trades: int, pnl: int, initial: int, lpDeposits: int, pairs: int, heights: int): map<(Address, Badge), bool>
  {
    var m1 := GrantIf(m, user, Trader, EarnedOnCheck(Trader, trades, pnl, initial, lpDeposits, pairs, heights));
    var m2 := GrantIf(m1, user, WealthBuilder, EarnedOnCheck(WealthBuilder, trades, pnl, initial, lpDeposits, pairs, heights));
    var m3 := GrantIf(m2, user, LiquidityProvider, EarnedOnCheck(LiquidityProvider, trades, pnl, initial, lpDeposits, pairs, heights));
    var m4 := GrantIf(m3, user, Diversifier, EarnedOnCheck(Diversifier, trades, pnl, initial, lpDeposits, pairs, heights));
    GrantIf(m4, user, Consistency, EarnedOnCheck(Consistency, trades, pnl, initial, lpDeposits, pairs, heights))
  }

  /** After the five awards the account holds exactly what it held plus every badge whose rule
      holds; no other account changes, and the map still stores only `true`. */
  lemma GrantOnCheckGrantsExactly(m: map<(Address, Badge), bool>, user: Address,
                                  trades: int, pnl: int, initial: int, lpDeposits: int, pairs: int, heights: int)
    ensures var r := GrantOnCheck(m, user, trades, pnl, initial, lpDeposits, pairs, heights);
            && (forall b :: Holds(r, user, b) <==>
                  Holds(m, user, b) || EarnedOnCheck(b, trades, pnl, initial, lpDeposits, pairs, heights))
            && (forall u, b :: u != user ==> Holds(r, u, b) == Holds(m, u, b))
            && ((forall k :: k in m ==> m[k]) ==> forall k :: k in r ==> r[k])
  {
    var r := GrantOnCheck(m, user, trades, pnl, initial, lpDeposits, pairs, heights);
    forall u, b
      ensures Holds(r, u, b) <==> Holds(m, u, b) || (u == user && EarnedOnCheck(b, trades, pnl, initial, lpDeposits, pairs, heights))
    {
    }
  }

  /** The badge map stores only `true`, and an account with a recorded trade holds FirstTrade. */
  ghost predicate BadgesConsistent(badges: map<(Address, Badge), bool>, trades: map<Address, u32>)
  {
    && (forall k :: k in badges ==> badges[k])
    && (forall u :: u in trades && trades[u] >= 1 ==> Holds(badges, u, FirstTrade))
  }

  /** A recorded initial balance is positive. */
  ghost predicate InitialBalancesPositive(initialBalances: map<Address, i128>)
  {
    forall u :: u in initialBalances ==> initialBalances[u] > 0
  }

  /** The per-account pair and height lists have no repeats. */
  ghost predicate TrackingNoDuplicates(pairs: map<Address, seq<Symbol>>, heights: map<Address, seq<nat>>)
  {
    && (forall u :: u in pairs ==> NoDuplicates(pairs[u]))
    && (forall u :: u in heights ==> NoDuplicates(heights[u]))
  }

  /** A per-account list after remembering `x` for `user`: `x` is appended to that account's
      list unless it is already there. */
  function Remember<T(==)>(m: map<Address, seq<T>>, user: Address, x: T): map<Address, seq<T>>
  {
    var xs := GetOr(m, user, []);
    if x in xs then m else m[user := xs + [x]]
  }

  /** Remembering puts `x` on the account's list, which grows by at most one entry and keeps its
      old entries in front; other accounts' lists are untouched, and lists without repeats stay
      without repeats. */
  lemma RememberKeepsListsDistinct<T>(m: map<Address, seq<T>>, user: Address, x: T)
    ensures var r := Remember(m, user, x);
            && user in r && x in r[user]
            && |GetOr(m, user, [])| <= |r[user]| <= |GetOr(m, user, [])| + 1
            && r[user][..|GetOr(m, user, [])|] == GetOr(m, user, [])
            && (forall u :: u != user ==> GetOr(r, u, []) == GetOr(m, u, []))
            && ((forall u :: u in m ==> NoDuplicates(m[u])) ==> forall u :: u in r ==> NoDuplicates(r[u]))
  {
    var xs := GetOr(m, user, []);
    var r := Remember(m, user, x);
    if x !in xs {
      assert r[user] == xs + [x];
      AppendIfAbsentKeepsDistinct(xs, x);
    }
  }

  /** The active-user list has no repeats and the leaderboard keeps its shape. */
  ghost predicate StatsShape(activeUsers: seq<Address>, topTraders: seq<Entry>)
  {
    NoDuplicates(activeUsers) && BoardValid(topTraders)
  }

  class Portfolio {
    var balances: map<(Address, Asset), i128>
    var trades: map<Address, u32>
    var pnl: map<Address, i128>
    var badges: map<(Address, Badge), bool>
    var metrics: Metrics
    var totalUsers: u32
    var totalTradingVolume: i128
    var activeUsers: seq<Address>
    var topTraders: seq<Entry>
    var xlmInPool: i128
    var usdcInPool: i128
    var totalFeesCollected: i128
    var initialBalances: map<Address, i128>
    var tokenPairsTraded: map<Address, seq<Symbol>>
    var ledgerHeightsTraded: map<Address, seq<nat>>
    var lpDepositsCount: map<Address, u32>
    var lpPositions: map<Address, LPPosition>
    var totalLpTokens: i128
    var lpFeesAccumulated: i128

    /** The invariant every operation keeps; each method states the parts about the fields it
        changes. */
    ghost predicate Valid()
      reads this
    {
      && BalancesNonNegative(balances)
      && BadgesConsistent(badges, trades)
      && InitialBalancesPositive(initialBalances)
      && TrackingNoDuplicates(tokenPairsTraded, ledgerHeightsTraded)
      && StatsShape(activeUsers, topTraders)
      && totalLpTokens >= 0
    }

    /** `Portfolio::new`: everything empty or zero. */
    constructor ()
      ensures Valid()
      ensures balances == map[] && trades == map[] && pnl == map[] && badges == map[]
      ensures metrics == Metrics(0, 0, 0) && totalUsers == 0 && totalTradingVolume == 0
      ensures activeUsers == [] && topTraders == []
      ensures xlmInPool == 0 && usdcInPool == 0 && totalFeesCollected == 0
      ensures initialBalances == map[] && tokenPairsTraded == map[] && ledgerHeightsTraded == map[]
      ensures lpDepositsCount == map[] && lpPositions == map[] && totalLpTokens == 0 && lpFeesAccumulated == 0
      ensures InvariantAssetConservation() && InvariantLpTokenConservation()
    {
      balances := map[];
      trades := map[];
      pnl := map[];
      badges := map[];
      metrics := Metrics(0, 0, 0);
      totalUsers := 0;
      totalTradingVolume := 0;
      activeUsers := [];
      topTraders := [];
      xlmInPool := 0;
      usdcInPool := 0;
      totalFeesCollected := 0;
      initialBalances := map[];
      tokenPairsTraded := map[];
      ledgerHeightsTraded := map[];
      lpDepositsCount := map[];
      lpPositions := map[];
      totalLpTokens := 0;
      lpFeesAccumulated := 0;
    }

    // ----- Queries -----

    /** `balance_of`: an account's balance of an asset, 0 when never touched. */
    function BalanceOf(token: Asset, user: Address): (r: i128)
      reads this`balances
      ensures (user, token) in balances ==> r == balances[(user, token)]
      ensures (user, token) !in balances ==> r == 0
      ensures BalancesNonNegative(balances) ==> r >= 0
    {
      BalanceIn(balances, token, user)
    }

    /** Under the invariant `balance_of` never reports a negative balance. */
    lemma BalanceOfIsNonNegative(token: Asset, user: Address)
      requires BalancesNonNegative(balances)
      ensures InvariantNonNegativeBalances(BalanceOf(token, user))
    {
      if (user, token) in balances {
        assert balances[(user, token)] >= 0;
      }
    }

    function PnlOf(user: Address): i128
      reads this`pnl
    {
      GetOr(pnl, user, 0)
    }

    function TradesOf(user: Address): u32
      reads this`trades
    {
      GetOr(trades, user, 0)
    }

    function LpDepositsOf(user: Address): u32
      reads this`lpDepositsCount
    {
      GetOr(lpDepositsCount, user, 0)
    }

    function PairsOf(user: Address): seq<Symbol>
      reads this`tokenPairsTraded
    {
      GetOr(tokenPairsTraded, user, [])
    }

    function HeightsOf(user: Address): seq<nat>
      reads this`ledgerHeightsTraded
    {
      GetOr(ledgerHeightsTraded, user, [])
    }

    function InitialBalanceOf(user: Address): Option<i128>
      reads this`initialBalances
    {
      if user in initialBalances then Some(initialBalances[user]) else None
    }

    /** `has_badge`: a badge is held when the map stores `true` for it. */
    function HasBadge(user: Address, badge: Badge): (r: bool)
      reads this`badges
      ensures r <==> (user, badge) in badges && badges[(user, badge)]
    {
      Holds(badges, user, badge)
    }

    /** `get_liquidity`: XLM and the custom token "USDCSIM" have a reserve; every other asset
        reads as 0. */
    function GetLiquidity(asset: Asset): (r: i128)
      reads this`xlmInPool, this`usdcInPool
      ensures asset == XLM ==> r == xlmInPool
      ensures asset == USDC_SIM ==> r == usdcInPool
      ensures asset != XLM && asset != USDC_SIM ==> r == 0
    {
      match asset
      case XLM => xlmInPool
      case Custom(sym) => if sym == USDC_SIM_SYMBOL then usdcInPool else 0
    }

    /** `get_lp_position`: the account's LP position, if it has one. */
    function GetLpPosition(user: Address): (r: Option<LPPosition>)
      reads this`lpPositions
      ensures r.Some? <==> user in lpPositions
      ensures r.Some? ==> r.value == lpPositions[user]
    {
      Lookup(lpPositions, user)
    }

    /** The award rules `check_and_award_badges` applies to one badge; FirstTrade is awarded
        by `record_trade` instead. */
    predicate EarnsOnCheck(user: Address, badge: Badge)
      reads this`trades, this`pnl, this`initialBalances, this`lpDepositsCount,
            this`tokenPairsTraded, this`ledgerHeightsTraded
    {
      EarnedOnCheck(badge, TradesOf(user), PnlOf(user), GetOr(initialBalances, user, 0),
                    LpDepositsOf(user), |PairsOf(user)|, |HeightsOf(user)|)
    }

    /** A badge map after the five awards of `check_and_award_badges`, judged on the account's
        current statistics. */
    function GrantedOnCheck(m: map<(Address, Badge), bool>, user: Address): map<(Address, Badge), bool>
      reads this`trades, this`pnl, this`initialBalances, this`lpDepositsCount,
            this`tokenPairsTraded, this`ledgerHeightsTraded
    {
      GrantOnCheck(m, user, TradesOf(user), PnlOf(user), GetOr(initialBalances, user, 0),
                   LpDepositsOf(user), |PairsOf(user)|, |HeightsOf(user)|)
    }

    /** `check_and_award_badges` multiplies a positive initial balance by 10 with a plain i128
        multiplication, which aborts the call when it overflows. */
    predicate BadgeCheckOverflows(user: Address)
      reads this`initialBalances
    {
      var initial := GetOr(initialBalances, user, 0);
      initial > 0 && initial * 10 > I128_MAX
    }

    /** A (badge, current, target) triple per badge kind, in declaration order, with targets
        1, 10, 10, 1, 5 and 7, given the figure reported for WealthBuilder. */
    function ProgressWith(user: Address, wealth: int): (r: seq<(Badge, int, int)>)
      reads this`trades, this`lpDepositsCount, this`tokenPairsTraded, this`ledgerHeightsTraded
      ensures |r| == |AllBadges|
      ensures forall i :: 0 <= i < |r| ==> r[i].0 == AllBadges[i]
    {
      var trades := TradesOf(user);
      [ (FirstTrade, trades, 1),
        (Trader, trades, 10),
        (WealthBuilder, wealth, 10),
        (LiquidityProvider, LpDepositsOf(user), 1),
        (Diversifier, |PairsOf(user)|, 5),
        (Consistency, |HeightsOf(user)|, 7) ]
    }

    /** `get_badge_progress` as the contract computes it, with the WealthBuilder figure of
        `WealthMultiplierAsWritten`. */
    function GetBadgeProgress(user: Address): (r: seq<(Badge, int, int)>)
      reads this`trades, this`pnl, this`initialBalances, this`lpDepositsCount,
            this`tokenPairsTraded, this`ledgerHeightsTraded
      ensures |r| == |AllBadges|
      ensures forall i :: 0 <= i < |r| ==> r[i].0 == AllBadges[i]
      ensures r[BadgeRank(WealthBuilder)].1 == WealthMultiplierAsWritten(PnlOf(user), InitialBalanceOf(user))
    {
      ProgressWith(user, WealthMultiplierAsWritten(PnlOf(user), InitialBalanceOf(user)))
    }

    /** The progress report agrees with the badges except on WealthBuilder: for every other badge
        `check_and_award_badges` grants, the current value reaches the target exactly when the
        award rule holds, and a FirstTrade progress of 1 or more means the badge is held. On
        WealthBuilder it agrees only when an initial balance is recorded and the PnL is a
        non-negative multiple of it below 2^32. */
    lemma ProgressMatchesAwardRules(user: Address, badge: Badge)
      requires BadgesConsistent(badges, trades) && InitialBalancesPositive(initialBalances)
      ensures var entry := GetBadgeProgress(user)[BadgeRank(badge)];
              && entry.0 == badge
              && (badge != FirstTrade && badge != WealthBuilder ==> (entry.1 >= entry.2 <==> EarnsOnCheck(user, badge)))
              && (badge == FirstTrade && entry.1 >= entry.2 ==> HasBadge(user, FirstTrade))
              && (badge == WealthBuilder && user in initialBalances && PnlOf(user) >= 0
                  && PnlOf(user) / initialBalances[user] <= U32_MAX
                  ==> (entry.1 >= entry.2 <==> EarnsOnCheck(user, badge)))
    {
      if badge == WealthBuilder && user in initialBalances && PnlOf(user) >= 0 && PnlOf(user) / initialBalances[user] <= U32_MAX {
        WealthMultiplierAsWrittenInRange(PnlOf(user), initialBalances[user]);
      }
    }

    /** The progress report with the corrected WealthBuilder figure of `WealthMultiplier`. */
    function CorrectedBadgeProgress(user: Address): (r: seq<(Badge, int, int)>)
      reads this`trades, this`pnl, this`initialBalances, this`lpDepositsCount,
            this`tokenPairsTraded, this`ledgerHeightsTraded
      ensures |r| == |AllBadges|
      ensures forall i :: 0 <= i < |r| ==> r[i].0 == AllBadges[i]
    {
      ProgressWith(user, WealthMultiplier(PnlOf(user), InitialBalanceOf(user)))
    }

    /** The corrected report agrees with the badges on every badge `check_and_award_badges`
        grants, WealthBuilder included. */
    lemma CorrectedProgressMatchesAwardRules(user: Address, badge: Badge)
      requires BadgesConsistent(badges, trades) && InitialBalancesPositive(initialBalances)
      ensures var entry := CorrectedBadgeProgress(user)[BadgeRank(badge)];
              && entry.0 == badge
              && (badge != FirstTrade ==> (entry.1 >= entry.2 <==> EarnsOnCheck(user, badge)))
              && (badge == FirstTrade && entry.1 >= entry.2 ==> HasBadge(user, FirstTrade))
    {
      WealthMultiplierMatchesAward(PnlOf(user), InitialBalanceOf(user));
    }

    /** `invariant_asset_conservation`: the checks it can make locally, that the reserves, the
        LP supply and the accumulated LP fees are not negative. */
    predicate InvariantAssetConservation()
      reads this`xlmInPool, this`usdcInPool, this`totalLpTokens, this`lpFeesAccumulated
    {
      xlmInPool >= 0 && usdcInPool >= 0 && totalLpTokens >= 0 && lpFeesAccumulated >= 0
    }

    /** `invariant_lp_token_conservation`: the LP supply is not negative. */
    predicate InvariantLpTokenConservation()
      reads this`totalLpTokens
    {
      totalLpTokens >= 0
    }

    /** The asset check passes exactly when both reserves `get_liquidity` reports and the
        accumulated LP fees are not negative and the LP supply check passes. */
    lemma AssetConservationMeaning()
      ensures InvariantAssetConservation()
              <==> GetLiquidity(XLM) >= 0 && GetLiquidity(USDC_SIM) >= 0 && lpFeesAccumulated >= 0
                   && InvariantLpTokenConservation()
    {
    }

    /** Every state the operations keep valid passes the LP supply check. */
    lemma ValidPassesLpTokenConservation()
      requires Valid()
      ensures InvariantLpTokenConservation()
    {
    }

    /** `get_user_badges`: the held badges, each once, in declaration order. */
    method GetUserBadges(user: Address) returns (r: seq<Badge>)
      ensures forall b :: b in r <==> HasBadge(user, b)
      ensures forall i, j :: 0 <= i < j < |r| ==> BadgeRank(r[i]) < BadgeRank(r[j])
      ensures |r| <= |AllBadges|
      ensures InvariantBadgeUniqueness(r)
    {
      r := [];
      for i := 0 to |AllBadges|
        invariant r == HeldAmong(badges, user, AllBadges[..i])
      {
        var badge := AllBadges[i];
        if HasBadge(user, badge) {
          r := r + [badge];
        }
        assert AllBadges[..i + 1][..i] == AllBadges[..i];
      }
      assert AllBadges[..|AllBadges|] == AllBadges;
      HeldAmongInRankOrder(badges, user, |AllBadges|);
    }

    /** `get_top_traders`: the first min(limit, 100, length) entries of the leaderboard, which
        are therefore the highest PnLs on it, highest first. */
    method GetTopTraders(limit: u32) returns (r: seq<Entry>)
      ensures r == topTraders[..Min(Min(limit, BOARD_CAPACITY), |topTraders|)]
      ensures BoardValid(topTraders) ==> SortedByPnl(r) && DistinctTraders(r)
      ensures BoardValid(topTraders) ==> forall i, j :: 0 <= i < |r| <= j < |topTraders| ==> r[i].1 >= topTraders[j].1
    {
      var actualLimit := if limit > BOARD_CAPACITY then BOARD_CAPACITY else limit;
      var len := |topTraders|;
      var cap := if len < actualLimit then len else actualLimit;
      r := [];
      for i := 0 to cap
        invariant r == topTraders[..i]
      {
        r := r + [topTraders[i]];
      }
    }

    // ----- Balance ledger -----

    /** `credit`: a zero amount changes nothing; a negative amount, or a balance that would pass
        i128::MAX, aborts; otherwise the balance rises by the amount and one balance update is
        counted. */
    method Credit(token: Asset, user: Address, amount: i128) returns (ok: bool)
      requires BalancesNonNegative(balances)
      modifies this`balances, this`metrics
      ensures BalancesNonNegative(balances)
      ensures ok <==> amount >= 0 && BalanceIn(old(balances), token, user) + amount <= I128_MAX
      ensures ok && amount > 0 ==> balances == Adjusted(old(balances), (user, token), amount)
                                   && metrics == CountBalanceUpdate(old(metrics))
      ensures !ok || amount == 0 ==> balances == old(balances) && metrics == old(metrics)
    {
      if amount == 0 {
        return true;
      }
      var current := BalanceOf(token, user);
      if amount < 0 || current + amount > I128_MAX {
        return false;
      }
      balances := Adjusted(balances, (user, token), amount);
      metrics := CountBalanceUpdate(metrics);
      return true;
    }

    /** `debit`: aborts unless the amount is positive and covered by the balance; otherwise the
        balance drops by exactly the amount (and stays non-negative), the PnL drops by it
        (saturating) and one balance update is counted. */
    method Debit(token: Asset, from: Address, amount: i128) returns (ok: bool)
      requires BalancesNonNegative(balances)
      modifies this`balances, this`pnl, this`metrics
      ensures BalancesNonNegative(balances)
      ensures ok <==> amount > 0 && BalanceIn(old(balances), token, from) >= amount
      ensures ok ==> balances == Adjusted(old(balances), (from, token), -amount)
                     && pnl == old(pnl)[from := SatSubI128(GetOr(old(pnl), from, 0), amount)]
                     && metrics == CountBalanceUpdate(old(metrics))
      ensures ok ==> InvariantBalanceUpdateConsistency(BalanceIn(old(balances), token, from), amount, 0, BalanceOf(token, from))
                     && InvariantNonNegativeBalances(BalanceOf(token, from))
      ensures !ok ==> balances == old(balances) && pnl == old(pnl) && metrics == old(metrics)
    {
      if amount <= 0 {
        return false;
      }
      var current := BalanceOf(token, from);
      if current < amount {
        return false;
      }
      balances := Adjusted(balances, (from, token), -amount);
      var currentPnl := PnlOf(from);
      pnl := pnl[from := SatSubI128(currentPnl, amount)];
      metrics := CountBalanceUpdate(metrics);
      return true;
    }

    /** `mint`: aborts on a negative amount or when the balance or the PnL would pass i128::MAX;
        otherwise both rise by the amount, the account is placed on the leaderboard with its new
        PnL, and one balance update is counted. */
    method Mint(token: Asset, to: Address, amount: i128) returns (ok: bool)
      requires BalancesNonNegative(balances) && BoardValid(topTraders)
      modifies this`balances, this`pnl, this`topTraders, this`metrics
      ensures BalancesNonNegative(balances) && BoardValid(topTraders)
      ensures ok <==> amount >= 0 && BalanceIn(old(balances), token, to) + amount <= I128_MAX
                      && GetOr(old(pnl), to, 0) + amount <= I128_MAX
      ensures ok ==> balances == Adjusted(old(balances), (to, token), amount)
                     && pnl == old(pnl)[to := GetOr(old(pnl), to, 0) + amount]
                     && HoldsPlaced(topTraders, old(topTraders), to, GetOr(pnl, to, 0))
                     && metrics == CountBalanceUpdate(old(metrics))
      ensures !ok ==> balances == old(balances) && pnl == old(pnl) && topTraders == old(topTraders)
                      && metrics == old(metrics)
    {
      if amount < 0 {
        return false;
      }
      var current := BalanceIn(balances, token, to);
      var currentPnl := GetOr(pnl, to, 0);
      if current + amount > I128_MAX || currentPnl + amount > I128_MAX {
        return false;
      }
      AdjustedStaysNonNegative(balances, (to, token), amount);
      balances := Adjusted(balances, (to, token), amount);
      pnl := pnl[to := currentPnl + amount];
      UpdateTopTraders(to);
      metrics := CountBalanceUpdate(metrics);
      return true;
    }

    /** `update_top_traders`: places the account's current PnL on the leaderboard and sorts it
        (see `UpdateBoard`). */
    method UpdateTopTraders(user: Address)
      requires BoardValid(topTraders)
      modifies this`topTraders
      ensures BoardValid(topTraders)
      ensures HoldsPlaced(topTraders, old(topTraders), user, GetOr(pnl, user, 0))
    {
      topTraders := UpdateBoard(topTraders, user, GetOr(pnl, user, 0));
    }

    /** `transfer_asset`: a debit of the source asset followed by a credit of the destination
        asset, then the trade statistics. Aborts when the debit does, or when the credit would
        pass i128::MAX (impossible when both assets are the same). The two balances move by the
        amount in opposite directions, so their sum is kept when the assets differ. */
    method TransferAsset(fromToken: Asset, toToken: Asset, user: Address, amount: i128) returns (ok: bool)
      requires BalancesNonNegative(balances) && StatsShape(activeUsers, topTraders)
      modifies this`balances, this`pnl, this`metrics, this`totalUsers, this`activeUsers, this`totalTradingVolume
      ensures BalancesNonNegative(balances) && StatsShape(activeUsers, topTraders)
      ensures ok <==> amount > 0 && BalanceIn(old(balances), fromToken, user) >= amount
                      && (fromToken == toToken || BalanceIn(old(balances), toToken, user) + amount <= I128_MAX)
      ensures ok ==> balances == Transferred(old(balances), user, fromToken, toToken, amount)
                     && pnl == old(pnl)[user := SatSubI128(GetOr(old(pnl), user, 0), amount)]
                     && metrics == CountBalanceUpdate(CountBalanceUpdate(old(metrics)))
                     && totalTradingVolume == SatAddI128(old(totalTradingVolume), amount)
      ensures ok && TradesOf(user) == 0 ==>
                totalUsers == SatAddU32(old(totalUsers), 1) && activeUsers == AppendIfAbsent(old(activeUsers), user)
      ensures ok && TradesOf(user) != 0 ==> totalUsers == old(totalUsers) && activeUsers == old(activeUsers)
      ensures !ok ==> balances == old(balances) && pnl == old(pnl) && metrics == old(metrics)
                      && totalUsers == old(totalUsers) && activeUsers == old(activeUsers)
                      && totalTradingVolume == old(totalTradingVolume)
    {
      if amount <= 0 || BalanceOf(fromToken, user) < amount {
        return false;
      }
      if fromToken != toToken && BalanceOf(toToken, user) + amount > I128_MAX {
        return false;
      }
      var debited := Debit(fromToken, user, amount);
      var credited := Credit(toToken, user, amount);
      UpdateStatsOnTrade(user, amount);
      return true;
    }

    // ----- Trades and badges -----

    /** `record_trade`: the trade count rises by exactly one (aborting at u32::MAX), a trade is
        counted in the metrics, and the first trade awards FirstTrade. */
    method RecordTrade(user: Address) returns (ok: bool)
      requires BadgesConsistent(badges, trades)
      modifies this`trades, this`metrics, this`badges
      ensures BadgesConsistent(badges, trades)
      ensures ok <==> GetOr(old(trades), user, 0) < U32_MAX
      ensures ok ==> trades == old(trades)[user := GetOr(old(trades), user, 0) + 1]
                     && metrics == old(metrics).(tradesExecuted := SatAddU32(old(metrics.tradesExecuted), 1))
                     && HasBadge(user, FirstTrade)
      ensures ok ==> badges == if GetOr(old(trades), user, 0) == 0 then old(badges)[(user, FirstTrade) := true] else old(badges)
      ensures ok ==> InvariantMetricsMonotonic(old(metrics.tradesExecuted), metrics.tradesExecuted,
                                               old(metrics.failedOrders), metrics.failedOrders)
      ensures !ok ==> trades == old(trades) && metrics == old(metrics) && badges == old(badges)
    {
      var count := TradesOf(user);
      if count + 1 > U32_MAX {
        return false;
      }
      trades := trades[user := count + 1];
      metrics := metrics.(tradesExecuted := SatAddU32(metrics.tradesExecuted, 1));
      if count == 0 {
        var _ := AwardBadge(user, FirstTrade);
      }
      return true;
    }

    /** `record_trade_with_amount` as the contract orders it: `record_trade` first, then the
        statistics. By the time the statistics look at the trade count it is at least 1, so the
        account is never counted as a new user or added to the active users. */
    method RecordTradeWithAmountAsWritten(user: Address, swapAmount: i128) returns (ok: bool)
      requires BadgesConsistent(badges, trades) && StatsShape(activeUsers, topTraders)
      modifies this`trades, this`metrics, this`badges, this`totalUsers, this`activeUsers, this`totalTradingVolume
      ensures BadgesConsistent(badges, trades) && StatsShape(activeUsers, topTraders)
      ensures ok <==> GetOr(old(trades), user, 0) < U32_MAX
      ensures ok ==> trades == old(trades)[user := GetOr(old(trades), user, 0) + 1]
                     && metrics == old(metrics).(tradesExecuted := SatAddU32(old(metrics.tradesExecuted), 1))
                     && totalTradingVolume == SatAddI128(old(totalTradingVolume), swapAmount)
                     && HasBadge(user, FirstTrade)
      ensures ok ==> totalUsers == old(totalUsers) && activeUsers == old(activeUsers)
      ensures !ok ==> trades == old(trades) && metrics == old(metrics) && badges == old(badges)
                      && totalUsers == old(totalUsers) && activeUsers == old(activeUsers)
                      && totalTradingVolume == old(totalTradingVolume)
    {
      ok := RecordTrade(user);
      if !ok {
        return;
      }
      UpdateStatsOnTrade(user, swapAmount);
    }

    /** `record_trade_with_amount` with the statistics taken before the trade is counted, so an
        account's first trade registers it as a user and an active user. */
    method RecordTradeWithAmount(user: Address, swapAmount: i128) returns (ok: bool)
      requires BadgesConsistent(badges, trades) && StatsShape(activeUsers, topTraders)
      modifies this`trades, this`metrics, this`badges, this`totalUsers, this`activeUsers, this`totalTradingVolume
      ensures BadgesConsistent(badges, trades) && StatsShape(activeUsers, topTraders)
      ensures ok <==> GetOr(old(trades), user, 0) < U32_MAX
      ensures ok ==> trades == old(trades)[user := GetOr(old(trades), user, 0) + 1]
                     && totalTradingVolume == SatAddI128(old(totalTradingVolume), swapAmount)
                     && HasBadge(user, FirstTrade)
      ensures ok && GetOr(old(trades), user, 0) == 0 ==>
                totalUsers == SatAddU32(old(totalUsers), 1) && activeUsers == AppendIfAbsent(old(activeUsers), user)
      ensures ok && GetOr(old(trades), user, 0) != 0 ==> totalUsers == old(totalUsers) && activeUsers == old(activeUsers)
      ensures !ok ==> trades == old(trades) && metrics == old(metrics) && badges == old(badges)
                      && totalUsers == old(totalUsers) && activeUsers == old(activeUsers)
                      && totalTradingVolume == old(totalTradingVolume)
    {
      if TradesOf(user) + 1 > U32_MAX {
        return false;
      }
      UpdateStatsOnTrade(user, swapAmount);
      ok := RecordTrade(user);
    }

    /** `award_badge`: grants the badge and reports whether it was new; a badge already held is
        left as it is. */
    method AwardBadge(user: Address, badge: Badge) returns (awarded: bool)
      modifies this`badges
      ensures awarded <==> !Holds(old(badges), user, badge)
      ensures HasBadge(user, badge)
      ensures badges == old(badges)[(user, badge) := true]
    {
      if HasBadge(user, badge) {
        return false;
      }
      badges := badges[(user, badge) := true];
      return true;
    }

    /** `inc_failed_order`: one more failed order (saturating); the metrics never go down. */
    method IncFailedOrder()
      modifies this`metrics
      ensures metrics == old(metrics).(failedOrders := SatAddU32(old(metrics.failedOrders), 1))
      ensures InvariantMetricsMonotonic(old(metrics.tradesExecuted), metrics.tradesExecuted,
                                        old(metrics.failedOrders), metrics.failedOrders)
    {
      metrics := metrics.(failedOrders := SatAddU32(metrics.failedOrders, 1));
    }

    /** `track_trade_for_badges`: the pair key and the ledger height are each remembered for the
        account (appended only when absent), so both lists stay free of repeats. */
    method TrackTradeForBadges(user: Address, fromToken: Symbol, toToken: Symbol, ledgerHeight: nat)
      requires TrackingNoDuplicates(tokenPairsTraded, ledgerHeightsTraded)
      modifies this`tokenPairsTraded, this`ledgerHeightsTraded
      ensures TrackingNoDuplicates(tokenPairsTraded, ledgerHeightsTraded)
      ensures tokenPairsTraded == Remember(old(tokenPairsTraded), user, FormatPair(fromToken, toToken))
      ensures ledgerHeightsTraded == Remember(old(ledgerHeightsTraded), user, ledgerHeight)
    {
      var pairs := PairsOf(user);
      var pairKey := FormatPair(fromToken, toToken);
      var seenPair := Contains(pairs, pairKey);
      if !seenPair {
        tokenPairsTraded := tokenPairsTraded[user := pairs + [pairKey]];
      }
      var heights := HeightsOf(user);
      var seenHeight := Contains(heights, ledgerHeight);
      if !seenHeight {
        ledgerHeightsTraded := ledgerHeightsTraded[user := heights + [ledgerHeight]];
      }
      RememberKeepsListsDistinct(old(tokenPairsTraded), user, pairKey);
      RememberKeepsListsDistinct(old(ledgerHeightsTraded), user, ledgerHeight);
    }

    /** `check_and_award_badges`: grants Trader, WealthBuilder, LiquidityProvider, Diversifier and
        Consistency to the account for each rule it meets, and changes nothing else; aborts when
        the tenfold initial balance overflows. */
    method CheckAndAwardBadges(user: Address) returns (ok: bool)
      requires BadgesConsistent(badges, trades)
      modifies this`badges
      ensures BadgesConsistent(badges, trades)
      ensures ok <==> !BadgeCheckOverflows(user)
      ensures !ok ==> badges == old(badges)
      ensures ok ==> badges == GrantedOnCheck(old(badges), user)
    {
      var initial := GetOr(initialBalances, user, 0);
      if initial > 0 && initial * 10 > I128_MAX {
        return false;
      }
      var trades, pnl, lpDeposits := TradesOf(user), PnlOf(user), LpDepositsOf(user);
      var pairs, heights := PairsOf(user), HeightsOf(user);
      GrantOnCheckGrantsExactly(badges, user, trades, pnl, initial, lpDeposits, |pairs|, |heights|);
      badges := GrantOnCheck(badges, user, trades, pnl, initial, lpDeposits, |pairs|, |heights|);
      return true;
    }

    /** `record_lp_deposit`: one more LP deposit for the account (saturating at u32::MAX). */
    method RecordLpDeposit(user: Address)
      modifies this`lpDepositsCount
      ensures lpDepositsCount == old(lpDepositsCount)[user := SatAddU32(GetOr(old(lpDepositsCount), user, 0), 1)]
      ensures LpDepositsOf(user) >= 1
    {
      var count := LpDepositsOf(user);
      lpDepositsCount := lpDepositsCount[user := SatAddU32(count, 1)];
    }

    /** `record_initial_balance`: records a positive amount the first time only; a recorded
        value is never replaced. */
    method RecordInitialBalance(user: Address, amount: i128)
      requires InitialBalancesPositive(initialBalances)
      modifies this`initialBalances
      ensures InitialBalancesPositive(initialBalances)
      ensures initialBalances == if user !in old(initialBalances) && amount > 0
                                 then old(initialBalances)[user := amount] else old(initialBalances)
    {
      if InitialBalanceOf(user).None? && amount > 0 {
        initialBalances := initialBalances[user := amount];
      }
    }

    // ----- Aggregate statistics -----

    /** `update_stats_on_trade`: an account with no recorded trade is counted as a user
        (saturating) and appended to the active users if absent; the volume grows by the amount
        (saturating). */
    method UpdateStatsOnTrade(user: Address, swapAmount: i128)
      requires StatsShape(activeUsers, topTraders)
      modifies this`totalUsers, this`activeUsers, this`totalTradingVolume
      ensures StatsShape(activeUsers, topTraders)
      ensures TradesOf(user) == 0 ==>
                totalUsers == SatAddU32(old(totalUsers), 1) && activeUsers == AppendIfAbsent(old(activeUsers), user)
      ensures TradesOf(user) != 0 ==> totalUsers == old(totalUsers) && activeUsers == old(activeUsers)
      ensures totalTradingVolume == SatAddI128(old(totalTradingVolume), swapAmount)
    {
      var tradeCount := TradesOf(user);
      if tradeCount == 0 {
        totalUsers := SatAddU32(totalUsers, 1);
        var isActive := Contains(activeUsers, user);
        if !isActive {
          activeUsers := activeUsers + [user];
        }
        AppendIfAbsentKeepsDistinct(old(activeUsers), user);
      }
      totalTradingVolume := SatAddI128(totalTradingVolume, swapAmount);
    }

    // ----- Pool and LP bookkeeping -----

    /** `add_pool_liquidity`: both reserves grow by their amounts (saturating). */
    method AddPoolLiquidity(xlmAmount: i128, usdcAmount: i128)
      modifies this`xlmInPool, this`usdcInPool
      ensures xlmInPool == SatAddI128(old(xlmInPool), xlmAmount)
      ensures usdcInPool == SatAddI128(old(usdcInPool), usdcAmount)
    {
      xlmInPool := SatAddI128(xlmInPool, xlmAmount);
      usdcInPool := SatAddI128(usdcInPool, usdcAmount);
    }

    /** `collect_fee`: the fee total grows by the fee (saturating). */
    method CollectFee(feeAmount: i128)
      modifies this`totalFeesCollected
      ensures totalFeesCollected == SatAddI128(old(totalFeesCollected), feeAmount)
    {
      totalFeesCollected := SatAddI128(totalFeesCollected, feeAmount);
    }

    /** `set_liquidity`: sets the reserve of XLM or of "USDCSIM", which `get_liquidity` then
        reads back; any other asset is ignored. */
    method SetLiquidity(asset: Asset, amount: i128)
      modifies this`xlmInPool, this`usdcInPool
      ensures asset == XLM || asset == USDC_SIM ==> GetLiquidity(asset) == amount
      ensures asset != XLM ==> xlmInPool == old(xlmInPool)
      ensures asset != USDC_SIM ==> usdcInPool == old(usdcInPool)
    {
      match asset {
        case XLM => xlmInPool := amount;
        case Custom(sym) =>
          if sym == USDC_SIM_SYMBOL {
            usdcInPool := amount;
          }
      }
    }

    /** `set_lp_position`: stores the position for the account. */
    method SetLpPosition(user: Address, position: LPPosition)
      modifies this`lpPositions
      ensures lpPositions == old(lpPositions)[user := position]
    {
      lpPositions := lpPositions[user := position];
    }

    /** `add_total_lp_tokens`: the LP supply grows by the minted amount (saturating). */
    method AddTotalLpTokens(amount: i128)
      requires totalLpTokens >= 0 && amount >= 0
      modifies this`totalLpTokens
      ensures totalLpTokens == SatAddI128(old(totalLpTokens), amount)
      ensures InvariantLpTokenConservation()
    {
      totalLpTokens := SatAddI128(totalLpTokens, amount);
    }

    /** `subtract_total_lp_tokens`: the LP supply shrinks by the burnt amount (saturating) and is
        floored at 0, so it is never negative afterwards. */
    method SubtractTotalLpTokens(amount: i128)
      modifies this`totalLpTokens
      ensures totalLpTokens == Max(0, SatSubI128(old(totalLpTokens), amount))
      ensures InvariantLpTokenConservation()
    {
      totalLpTokens := SatSubI128(totalLpTokens, amount);
      if totalLpTokens < 0 {
        totalLpTokens := 0;
      }
    }

    /** `add_lp_fees`: the accumulated LP fees grow by the amount (saturating). */
    method AddLpFees(amount: i128)
      modifies this`lpFeesAccumulated
      ensures lpFeesAccumulated == SatAddI128(old(lpFeesAccumulated), amount)
    {
      lpFeesAccumulated := SatAddI128(lpFeesAccumulated, amount);
    }
  }
}
