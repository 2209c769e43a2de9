/** The contract entry points that drive the portfolio's liquidity pool and swaps:
    `add_liquidity`, `remove_liquidity`, the fee split of `swap`, the validation of `try_swap`
    and `get_lp_positions`. Each entry point loads the stored portfolio, updates it and stores
    it back; a panic anywhere discards every change, so a method here returns `ok == false`
    with the portfolio unchanged whenever the contract call would panic. */
module Contract {
  import opened Numeric
  import opened Types
  import opened IntegerSqrt
  import opened LiquidityMath
  import opened SwapRules
  import opened Leaderboard
  import opened PortfolioModel

  // ----- Balances moved by the pool -----

  /** The balances after `add_liquidity` debits the deposit: XLM, then "USDCSIM". */
  function PaidIn(m: map<(Address, Asset), i128>, user: Address, xlmAmount: int, usdcAmount: int): map<(Address, Asset), i128>
    requires 0 < xlmAmount <= BalanceIn(m, XLM, user) && 0 < usdcAmount <= BalanceIn(m, USDC_SIM, user)
  {
    Adjusted(Adjusted(m, (user, XLM), -xlmAmount), (user, USDC_SIM), -usdcAmount)
  }

  /** The balances after `remove_liquidity` mints the payout: XLM, then "USDCSIM". */
  function PaidOut(m: map<(Address, Asset), i128>, user: Address, xlmOut: int, usdcOut: int): map<(Address, Asset), i128>
    requires 0 <= xlmOut && BalanceIn(m, XLM, user) + xlmOut <= I128_MAX
    requires 0 <= usdcOut && BalanceIn(m, USDC_SIM, user) + usdcOut <= I128_MAX
  {
    Adjusted(Adjusted(m, (user, XLM), xlmOut), (user, USDC_SIM), usdcOut)
  }

  /** A deposit moves exactly its amounts from the account into the reserves: each balance
      drops by its amount, the account's holding plus the (unsaturated) reserve is unchanged,
      no other balance moves and none becomes negative. */
  lemma DepositMovesFundsIntoPool(m: map<(Address, Asset), i128>, user: Address, xlmAmount: int, usdcAmount: int,
                                  reserveXlm: int, reserveUsdc: int)
    requires 0 < xlmAmount <= BalanceIn(m, XLM, user) && 0 < usdcAmount <= BalanceIn(m, USDC_SIM, user)
    requires IsI128(reserveXlm + xlmAmount) && IsI128(reserveUsdc + usdcAmount)
    ensures var r := PaidIn(m, user, xlmAmount, usdcAmount);
            && BalanceIn(r, XLM, user) == BalanceIn(m, XLM, user) - xlmAmount
            && BalanceIn(r, USDC_SIM, user) == BalanceIn(m, USDC_SIM, user) - usdcAmount
            && BalanceIn(r, XLM, user) + SatAddI128(reserveXlm, xlmAmount) == BalanceIn(m, XLM, user) + reserveXlm
            && BalanceIn(r, USDC_SIM, user) + SatAddI128(reserveUsdc, usdcAmount) == BalanceIn(m, USDC_SIM, user) + reserveUsdc
            && (forall k :: k != (user, XLM) && k != (user, USDC_SIM) ==> GetOr(r, k, 0) == GetOr(m, k, 0))
            && (BalancesNonNegative(m) ==> BalancesNonNegative(r))
  {
    var debited := Adjusted(m, (user, XLM), -xlmAmount);
    if BalancesNonNegative(m) {
      AdjustedStaysNonNegative(m, (user, XLM), -xlmAmount);
      AdjustedStaysNonNegative(debited, (user, USDC_SIM), -usdcAmount);
    }
  }

  /** A payout moves exactly its amounts from the reserves to the account: each balance rises
      by its amount, the account's holding plus the (unsaturated) reserve is unchanged, no
      other balance moves and none becomes negative. */
  lemma PayoutMovesFundsOutOfPool(m: map<(Address, Asset), i128>, user: Address, xlmOut: int, usdcOut: int,
                                  reserveXlm: int, reserveUsdc: int)
    requires 0 <= xlmOut && BalanceIn(m, XLM, user) + xlmOut <= I128_MAX
    requires 0 <= usdcOut && BalanceIn(m, USDC_SIM, user) + usdcOut <= I128_MAX
    requires IsI128(reserveXlm - xlmOut) && IsI128(reserveUsdc - usdcOut)
    ensures var r := PaidOut(m, user, xlmOut, usdcOut);
            && BalanceIn(r, XLM, user) == BalanceIn(m, XLM, user) + xlmOut
            && BalanceIn(r, USDC_SIM, user) == BalanceIn(m, USDC_SIM, user) + usdcOut
            && BalanceIn(r, XLM, user) + SatSubI128(reserveXlm, xlmOut) == BalanceIn(m, XLM, user) + reserveXlm
            && BalanceIn(r, USDC_SIM, user) + SatSubI128(reserveUsdc, usdcOut) == BalanceIn(m, USDC_SIM, user) + reserveUsdc
            && (forall k :: k != (user, XLM) && k != (user, USDC_SIM) ==> GetOr(r, k, 0) == GetOr(m, k, 0))
            && (BalancesNonNegative(m) ==> BalancesNonNegative(r))
  {
    var credited := Adjusted(m, (user, XLM), xlmOut);
    if BalancesNonNegative(m) {
      AdjustedStaysNonNegative(m, (user, XLM), xlmOut);
      AdjustedStaysNonNegative(credited, (user, USDC_SIM), usdcOut);
    }
  }

  // ----- LP positions -----

  /** The position `add_liquidity` stores: an existing position has the deposit and the minted
      tokens added (saturating); otherwise a new position holds exactly them. */
  function DepositedPosition(existing: Option<LPPosition>, user: Address, xlmAmount: i128, usdcAmount: i128, minted: i128): LPPosition
  {
    match existing
    case None => LPPosition(user, xlmAmount, usdcAmount, minted)
    case Some(pos) =>
      pos.(xlmDeposited := SatAddI128(pos.xlmDeposited, xlmAmount),
           usdcDeposited := SatAddI128(pos.usdcDeposited, usdcAmount),
           lpTokensMinted := SatAddI128(pos.lpTokensMinted, minted))
  }

  /** The position `remove_liquidity` stores: tokens burnt and amounts paid out subtracted
      (saturating). A position brought to zero is kept, not removed. */
  function WithdrawnPosition(pos: LPPosition, lpTokens: i128, xlmOut: i128, usdcOut: i128): LPPosition
  {
    pos.(lpTokensMinted := SatSubI128(pos.lpTokensMinted, lpTokens),
         xlmDeposited := SatSubI128(pos.xlmDeposited, xlmOut),
         usdcDeposited := SatSubI128(pos.usdcDeposited, usdcOut))
  }

  /** Withdrawing exactly what a deposit added undoes it: an existing position is restored, and
      a position the deposit created is left at zero with its owner (it is kept, not removed).
      Stated when the deposit's additions do not saturate. */
  lemma WithdrawalUndoesDeposit(existing: Option<LPPosition>, user: Address, xlmAmount: i128, usdcAmount: i128, minted: i128)
    requires existing.Some? ==> && IsI128(existing.value.xlmDeposited + xlmAmount)
                                && IsI128(existing.value.usdcDeposited + usdcAmount)
                                && IsI128(existing.value.lpTokensMinted + minted)
    ensures var deposited := DepositedPosition(existing, user, xlmAmount, usdcAmount, minted);
            var back := WithdrawnPosition(deposited, minted, xlmAmount, usdcAmount);
            && (existing.Some? ==> back == existing.value)
            && (existing.None? ==> back == LPPosition(user, 0, 0, 0))
  {
  }

  /** A deposit adds the minted tokens to the position's count (when that does not saturate),
      and the position keeps its owner. */
  lemma DepositCreditsMintedTokens(existing: Option<LPPosition>, user: Address, xlmAmount: i128, usdcAmount: i128, minted: i128)
    requires existing.Some? ==> existing.value.lpAddress == user
    ensures var r := DepositedPosition(existing, user, xlmAmount, usdcAmount, minted);
            var before := if existing.Some? then existing.value.lpTokensMinted else 0;
            && r.lpAddress == user
            && (IsI128(before + minted) ==> r.lpTokensMinted == before + minted)
  {
  }

  /** `get_lp_positions`: the account's position as a list of at most one element. */
  function LpPositionsOf(p: Portfolio, user: Address): (r: seq<LPPosition>)
    reads p`lpPositions
    ensures |r| <= 1
    ensures r == [] <==> user !in p.lpPositions
    ensures forall pos :: pos in r <==> p.GetLpPosition(user) == Some(pos)
  {
    match p.GetLpPosition(user)
    case None => []
    case Some(pos) => [pos]
  }

  // ----- add_liquidity -----

  /** The amount a deposit would mint is known and positive; `add_liquidity` refuses any
      other outcome. */
  predicate DepositMints(xlmAmount: int, usdcAmount: int, reserveXlm: int, reserveUsdc: int, total: int)
    requires 0 < xlmAmount <= I128_MAX && 0 < usdcAmount <= I128_MAX
    requires IsI128(reserveXlm) && IsI128(reserveUsdc) && 0 <= total <= I128_MAX
  {
    var r := LpTokensToMint(xlmAmount, usdcAmount, reserveXlm, reserveUsdc, total);
    r.Some? && r.value > 0
  }

  /** The LP tokens a deposit mints, computed as `add_liquidity` computes them: on an empty
      supply the Babylonian loop runs on the saturated product (never 0, since both amounts
      are positive, so the contract's zero-product check cannot fire) and its u128 result is
      cast to i128; otherwise each axis share is cast and the smaller taken. `ok` is false
      when the loop aborts on overflow. */
  method MintForDeposit(xlmAmount: i128, usdcAmount: i128, reserveXlm: i128, reserveUsdc: i128, total: i128)
    returns (ok: bool, minted: i128)
    requires xlmAmount > 0 && usdcAmount > 0 && total >= 0
    ensures ok <==> LpTokensToMint(xlmAmount, usdcAmount, reserveXlm, reserveUsdc, total).Some?
    ensures ok ==> minted == LpTokensToMint(xlmAmount, usdcAmount, reserveXlm, reserveUsdc, total).value
  {
    if total == 0 {
      var product := SatMulU128(xlmAmount, usdcAmount);
      var rootOk, root := BabylonianSqrt(product);
      if !rootOk {
        return false, 0;
      }
      return true, U128AsI128(root);
    }
    var xlmShare := AxisShare(xlmAmount, total, reserveXlm);
    var usdcShare := AxisShare(usdcAmount, total, reserveUsdc);
    return true, Min(U128AsI128(xlmShare), U128AsI128(usdcShare));
  }

  /** The two debits of `add_liquidity`: XLM, then "USDCSIM". */
  method PayDeposit(p: Portfolio, user: Address, xlmAmount: i128, usdcAmount: i128)
    requires BalancesNonNegative(p.balances)
    requires 0 < xlmAmount <= p.BalanceOf(XLM, user) && 0 < usdcAmount <= p.BalanceOf(USDC_SIM, user)
    modifies p`balances, p`pnl, p`metrics
    ensures BalancesNonNegative(p.balances)
    ensures p.balances == PaidIn(old(p.balances), user, xlmAmount, usdcAmount)
    ensures p.pnl == old(p.pnl)[user := SatSubI128(SatSubI128(GetOr(old(p.pnl), user, 0), xlmAmount), usdcAmount)]
    ensures p.metrics == CountBalanceUpdate(CountBalanceUpdate(old(p.metrics)))
  {
    var paidXlm := p.Debit(XLM, user, xlmAmount);
    var paidUsdc := p.Debit(USDC_SIM, user, usdcAmount);
  }

  /** The pool bookkeeping of `add_liquidity`: the reserves, the position, the LP supply and
      the deposit count. */
  method BookDeposit(p: Portfolio, user: Address, xlmAmount: i128, usdcAmount: i128, minted: i128)
    requires p.totalLpTokens >= 0 && minted > 0
    modifies p`xlmInPool, p`usdcInPool, p`lpPositions, p`totalLpTokens, p`lpDepositsCount
    ensures p.xlmInPool == SatAddI128(old(p.xlmInPool), xlmAmount)
    ensures p.usdcInPool == SatAddI128(old(p.usdcInPool), usdcAmount)
    ensures p.lpPositions == old(p.lpPositions)[user := DepositedPosition(Lookup(old(p.lpPositions), user), user, xlmAmount, usdcAmount, minted)]
    ensures p.totalLpTokens == SatAddI128(old(p.totalLpTokens), minted) && p.totalLpTokens >= 0
    ensures p.lpDepositsCount == old(p.lpDepositsCount)[user := SatAddU32(GetOr(old(p.lpDepositsCount), user, 0), 1)]
  {
    var position := DepositedPosition(p.GetLpPosition(user), user, xlmAmount, usdcAmount, minted);
    p.AddPoolLiquidity(xlmAmount, usdcAmount);
    p.SetLpPosition(user, position);
    p.AddTotalLpTokens(minted);
    p.RecordLpDeposit(user);
  }

  /** What a successful `add_liquidity` does to the portfolio: the account pays both amounts
      (and its PnL drops by them, saturating), two balance updates are counted, the reserves
      grow by the amounts, the position takes the deposit and the minted tokens, the LP supply
      grows by the minted tokens, one more LP deposit is counted, and the badge map is the
      old one after the award rules are applied to the account's new statistics. */
  twostate predicate DepositApplied(p: Portfolio, user: Address, xlmAmount: i128, usdcAmount: i128, minted: i128)
    reads p
  {
    && 0 < xlmAmount <= BalanceIn(old(p.balances), XLM, user)
    && 0 < usdcAmount <= BalanceIn(old(p.balances), USDC_SIM, user)
    && p.balances == PaidIn(old(p.balances), user, xlmAmount, usdcAmount)
    && p.pnl == old(p.pnl)[user := SatSubI128(SatSubI128(GetOr(old(p.pnl), user, 0), xlmAmount), usdcAmount)]
    && p.metrics == CountBalanceUpdate(CountBalanceUpdate(old(p.metrics)))
    && p.xlmInPool == SatAddI128(old(p.xlmInPool), xlmAmount)
    && p.usdcInPool == SatAddI128(old(p.usdcInPool), usdcAmount)
    && p.lpPositions == old(p.lpPositions)[user := DepositedPosition(Lookup(old(p.lpPositions), user), user, xlmAmount, usdcAmount, minted)]
    && p.totalLpTokens == SatAddI128(old(p.totalLpTokens), minted)
    && p.lpDepositsCount == old(p.lpDepositsCount)[user := SatAddU32(GetOr(old(p.lpDepositsCount), user, 0), 1)]
    && p.badges == p.GrantedOnCheck(old(p.badges), user)
  }

  /** The changes `add_liquidity` makes once its checks have passed, in the contract's order:
      both debits, the reserves, the position, the LP supply, the deposit count and the badge
      check. */
  method ApplyDeposit(p: Portfolio, user: Address, xlmAmount: i128, usdcAmount: i128, minted: i128)
    requires BalancesNonNegative(p.balances) && BadgesConsistent(p.badges, p.trades) && p.totalLpTokens >= 0
    requires 0 < xlmAmount <= p.BalanceOf(XLM, user) && 0 < usdcAmount <= p.BalanceOf(USDC_SIM, user)
    requires minted > 0 && !p.BadgeCheckOverflows(user)
    modifies p`balances, p`pnl, p`metrics, p`xlmInPool, p`usdcInPool, p`lpPositions, p`totalLpTokens,
             p`lpDepositsCount, p`badges
    ensures BalancesNonNegative(p.balances) && BadgesConsistent(p.badges, p.trades) && p.totalLpTokens >= 0
    ensures DepositApplied(p, user, xlmAmount, usdcAmount, minted)
  {
    hide GrantOnCheck, PaidIn, DepositedPosition;
    PayDeposit(p, user, xlmAmount, usdcAmount);
    BookDeposit(p, user, xlmAmount, usdcAmount, minted);
    var checked := p.CheckAndAwardBadges(user);
  }

  /** `add_liquidity`: deposits both assets into the pool and mints LP tokens for them. Aborts
      unless both amounts are positive, the rate limiter admits the call (an input here), the
      account holds both amounts and the mint (the Babylonian root of the product on an empty
      supply, else the smaller proportional share) is positive; the badge check at the end
      aborts too when the account's tenfold initial balance overflows. On success the account
      pays both amounts, the reserves grow by them, the position and the LP supply grow by the
      minted amount, one more LP deposit is counted and the badges are re-checked. */
  method AddLiquidity(p: Portfolio, xlmAmount: i128, usdcAmount: i128, user: Address, withinLpLimit: bool)
    returns (ok: bool, minted: i128)
    requires p.Valid()
    modifies p`balances, p`pnl, p`metrics, p`xlmInPool, p`usdcInPool, p`lpPositions, p`totalLpTokens,
             p`lpDepositsCount, p`badges
    ensures p.Valid()
    ensures ok <==> && xlmAmount > 0 && usdcAmount > 0 && withinLpLimit
                    && BalanceIn(old(p.balances), XLM, user) >= xlmAmount
                    && BalanceIn(old(p.balances), USDC_SIM, user) >= usdcAmount
                    && DepositMints(xlmAmount, usdcAmount, old(p.xlmInPool), old(p.usdcInPool), old(p.totalLpTokens))
                    && !p.BadgeCheckOverflows(user)
    ensures ok ==> && minted == LpTokensToMint(xlmAmount, usdcAmount, old(p.xlmInPool), old(p.usdcInPool), old(p.totalLpTokens)).value
                   && DepositApplied(p, user, xlmAmount, usdcAmount, minted)
    ensures !ok ==> unchanged(p)
  {
    hide GrantOnCheck, LpTokensToMint, PaidIn;
    ok, minted := false, 0;
    if xlmAmount <= 0 || usdcAmount <= 0 || !withinLpLimit {
      return;
    }
    if p.BalanceOf(XLM, user) < xlmAmount || p.BalanceOf(USDC_SIM, user) < usdcAmount {
      return;
    }
    var mintOk, mint := MintForDeposit(xlmAmount, usdcAmount, p.GetLiquidity(XLM), p.GetLiquidity(USDC_SIM), p.totalLpTokens);
    // The badge check that ends the call aborts it on this overflow; it reads nothing the
    // call changes, so it is checked here, before the first change.
    if !mintOk || mint <= 0 || p.BadgeCheckOverflows(user) {
      return;
    }
    ApplyDeposit(p, user, xlmAmount, usdcAmount, mint);
    ok, minted := true, mint;
  }

  // ----- remove_liquidity -----

  /** The checks `remove_liquidity` makes before paying out: a positive burn, a position
      holding at least that many tokens, a positive LP supply, both payouts positive and
      neither above 101% of what the position deposited of that asset. */
  predicate WithdrawalAllowed(position: Option<LPPosition>, reserveXlm: i128, reserveUsdc: i128, total: i128, lpTokens: i128)
  {
    && lpTokens > 0
    && position.Some? && position.value.lpTokensMinted >= lpTokens
    && total > 0
    && var xlmOut := WithdrawnAmount(lpTokens, reserveXlm, total);
       var usdcOut := WithdrawnAmount(lpTokens, reserveUsdc, total);
       && xlmOut > 0 && usdcOut > 0
       && xlmOut <= WithdrawalCap(position.value.xlmDeposited)
       && usdcOut <= WithdrawalCap(position.value.usdcDeposited)
  }

  /** The two mints of the payout do not overflow: neither balance and not the PnL, which
      grows by both amounts, passes i128::MAX. */
  predicate PayoutFits(balances: map<(Address, Asset), i128>, pnl: map<Address, i128>, user: Address, xlmOut: int, usdcOut: int)
  {
    && BalanceIn(balances, XLM, user) + xlmOut <= I128_MAX
    && BalanceIn(balances, USDC_SIM, user) + usdcOut <= I128_MAX
    && GetOr(pnl, user, 0) + xlmOut + usdcOut <= I128_MAX
  }

  /** The reserves after a withdrawal: each set to its old value less the payout
      (saturating). */
  method ReleaseReserves(p: Portfolio, currentXlm: i128, currentUsdc: i128, xlmOut: i128, usdcOut: i128)
    requires currentXlm == p.xlmInPool && currentUsdc == p.usdcInPool
    modifies p`xlmInPool, p`usdcInPool
    ensures p.xlmInPool == SatSubI128(currentXlm, xlmOut)
    ensures p.usdcInPool == SatSubI128(currentUsdc, usdcOut)
  {
    p.SetLiquidity(XLM, SatSubI128(currentXlm, xlmOut));
    p.SetLiquidity(USDC_SIM, SatSubI128(currentUsdc, usdcOut));
  }

  /** One mint of a withdrawal's payout, which the caller has checked cannot overflow: the
      balance and the PnL rise by `amount` and the account is re-ranked. */
  method PayOne(p: Portfolio, token: Asset, user: Address, amount: i128)
    requires BalancesNonNegative(p.balances) && BoardValid(p.topTraders)
    requires 0 < amount && BalanceIn(p.balances, token, user) + amount <= I128_MAX
    requires GetOr(p.pnl, user, 0) + amount <= I128_MAX
    modifies p`balances, p`pnl, p`topTraders, p`metrics
    ensures BalancesNonNegative(p.balances) && BoardValid(p.topTraders)
    ensures p.balances == Adjusted(old(p.balances), (user, token), amount)
    ensures p.pnl == old(p.pnl)[user := GetOr(old(p.pnl), user, 0) + amount]
    ensures GetOr(p.pnl, user, 0) == GetOr(old(p.pnl), user, 0) + amount
    ensures HoldsPlaced(p.topTraders, old(p.topTraders), user, GetOr(old(p.pnl), user, 0) + amount)
    ensures p.metrics == CountBalanceUpdate(old(p.metrics))
  {
    var paid := p.Mint(token, user, amount);
  }

  /** The payout of a withdrawal: two mints, XLM then "USDCSIM", each of which also raises the
      PnL and re-ranks the account on the leaderboard; `midBoard` is the leaderboard between
      them. */
  method PayWithdrawal(p: Portfolio, user: Address, xlmOut: i128, usdcOut: i128)
    returns (ghost midBoard: seq<Entry>)
    requires BalancesNonNegative(p.balances) && BoardValid(p.topTraders)
    requires 0 < xlmOut && 0 < usdcOut && PayoutFits(p.balances, p.pnl, user, xlmOut, usdcOut)
    modifies p`balances, p`pnl, p`topTraders, p`metrics
    ensures BalancesNonNegative(p.balances) && BoardValid(p.topTraders)
    ensures p.balances == PaidOut(old(p.balances), user, xlmOut, usdcOut)
    ensures p.pnl == old(p.pnl)[user := GetOr(old(p.pnl), user, 0) + xlmOut + usdcOut]
    ensures p.metrics == CountBalanceUpdate(CountBalanceUpdate(old(p.metrics)))
    ensures HoldsPlaced(midBoard, old(p.topTraders), user, GetOr(old(p.pnl), user, 0) + xlmOut)
    ensures HoldsPlaced(p.topTraders, midBoard, user, GetOr(p.pnl, user, 0))
  {
    hide HoldsPlaced;
    PayOne(p, XLM, user, xlmOut);
    midBoard := p.topTraders;
    PayOne(p, USDC_SIM, user, usdcOut);
  }

  /** The LP bookkeeping of a withdrawal: the reduced position is stored and the supply
      shrinks by the burnt tokens (floored at 0). */
  method BookWithdrawal(p: Portfolio, user: Address, pos: LPPosition, lpTokens: i128, xlmOut: i128, usdcOut: i128)
    modifies p`lpPositions, p`totalLpTokens
    ensures p.lpPositions == old(p.lpPositions)[user := WithdrawnPosition(pos, lpTokens, xlmOut, usdcOut)]
    ensures p.totalLpTokens == Max(0, SatSubI128(old(p.totalLpTokens), lpTokens))
  {
    p.SetLpPosition(user, WithdrawnPosition(pos, lpTokens, xlmOut, usdcOut));
    p.SubtractTotalLpTokens(lpTokens);
  }

  /** What a successful `remove_liquidity` does to the portfolio: each reserve falls by its
      payout (saturating); the account is paid both amounts through `mint`, so its PnL rises by
      both, two balance updates are counted and the leaderboard is updated once per mint
      (`midBoard` is the board between the two); the position loses the burnt tokens and the
      paid amounts; the LP supply falls by the burnt tokens, floored at 0. */
  twostate predicate WithdrawalApplied(p: Portfolio, user: Address, lpTokens: i128, xlmOut: i128, usdcOut: i128, new midBoard: seq<Entry>)
    reads p
  {
    && user in old(p.lpPositions)
    && 0 < xlmOut && 0 < usdcOut && PayoutFits(old(p.balances), old(p.pnl), user, xlmOut, usdcOut)
    && p.xlmInPool == SatSubI128(old(p.xlmInPool), xlmOut)
    && p.usdcInPool == SatSubI128(old(p.usdcInPool), usdcOut)
    && p.balances == PaidOut(old(p.balances), user, xlmOut, usdcOut)
    && p.pnl == old(p.pnl)[user := GetOr(old(p.pnl), user, 0) + xlmOut + usdcOut]
    && p.metrics == CountBalanceUpdate(CountBalanceUpdate(old(p.metrics)))
    && HoldsPlaced(midBoard, old(p.topTraders), user, GetOr(old(p.pnl), user, 0) + xlmOut)
    && HoldsPlaced(p.topTraders, midBoard, user, GetOr(p.pnl, user, 0))
    && p.lpPositions == old(p.lpPositions)[user := WithdrawnPosition(old(p.lpPositions)[user], lpTokens, xlmOut, usdcOut)]
    && p.totalLpTokens == Max(0, SatSubI128(old(p.totalLpTokens), lpTokens))
  }

  /** The changes `remove_liquidity` makes once its checks have passed, in the contract's
      order: the reserves, the two mints of the payout, the position and the LP supply. */
  method ApplyWithdrawal(p: Portfolio, user: Address, lpTokens: i128, xlmOut: i128, usdcOut: i128)
    returns (ghost midBoard: seq<Entry>)
    requires BalancesNonNegative(p.balances) && BoardValid(p.topTraders) && user in p.lpPositions
    requires 0 < xlmOut && 0 < usdcOut && PayoutFits(p.balances, p.pnl, user, xlmOut, usdcOut)
    modifies p`xlmInPool, p`usdcInPool, p`balances, p`pnl, p`topTraders, p`metrics, p`lpPositions, p`totalLpTokens
    ensures BalancesNonNegative(p.balances) && BoardValid(p.topTraders)
    ensures p.xlmInPool == SatSubI128(old(p.xlmInPool), xlmOut)
    ensures p.usdcInPool == SatSubI128(old(p.usdcInPool), usdcOut)
    ensures p.balances == PaidOut(old(p.balances), user, xlmOut, usdcOut)
    ensures p.pnl == old(p.pnl)[user := GetOr(old(p.pnl), user, 0) + xlmOut + usdcOut]
    ensures p.metrics == CountBalanceUpdate(CountBalanceUpdate(old(p.metrics)))
    ensures HoldsPlaced(midBoard, old(p.topTraders), user, GetOr(old(p.pnl), user, 0) + xlmOut)
    ensures HoldsPlaced(p.topTraders, midBoard, user, GetOr(p.pnl, user, 0))
    ensures p.lpPositions == old(p.lpPositions)[user := WithdrawnPosition(old(p.lpPositions)[user], lpTokens, xlmOut, usdcOut)]
    ensures p.totalLpTokens == Max(0, SatSubI128(old(p.totalLpTokens), lpTokens))
  {
    hide HoldsPlaced, Placed, BoardValid, PaidOut;
    var pos := p.lpPositions[user];
    ReleaseReserves(p, p.xlmInPool, p.usdcInPool, xlmOut, usdcOut);
    midBoard := PayWithdrawal(p, user, xlmOut, usdcOut);
    BookWithdrawal(p, user, pos, lpTokens, xlmOut, usdcOut);
  }

  /** `remove_liquidity`: burns LP tokens for a proportional share of both reserves. Aborts
      unless the checks of `WithdrawalAllowed` pass and the payout fits. On success each
      reserve falls by its payout (saturating), the account is paid both through `mint` (so
      its PnL rises and the leaderboard is updated twice, once per mint), the position loses
      the burnt tokens and the paid amounts, and the LP supply falls by the burnt tokens
      (floored at 0). `midBoard` is the leaderboard between the two mints. */
  method RemoveLiquidity(p: Portfolio, lpTokens: i128, user: Address)
    returns (ok: bool, xlmOut: i128, usdcOut: i128, ghost midBoard: seq<Entry>)
    requires p.Valid()
    modifies p`xlmInPool, p`usdcInPool, p`balances, p`pnl, p`topTraders, p`metrics, p`lpPositions, p`totalLpTokens
    ensures p.Valid()
    ensures ok <==> && WithdrawalAllowed(Lookup(old(p.lpPositions), user), old(p.xlmInPool), old(p.usdcInPool), old(p.totalLpTokens), lpTokens)
                    && PayoutFits(old(p.balances), old(p.pnl), user,
                                  WithdrawnAmount(lpTokens, old(p.xlmInPool), old(p.totalLpTokens)),
                                  WithdrawnAmount(lpTokens, old(p.usdcInPool), old(p.totalLpTokens)))
    ensures ok ==> && xlmOut == WithdrawnAmount(lpTokens, old(p.xlmInPool), old(p.totalLpTokens))
                   && usdcOut == WithdrawnAmount(lpTokens, old(p.usdcInPool), old(p.totalLpTokens))
                   && WithdrawalApplied(p, user, lpTokens, xlmOut, usdcOut, midBoard)
    ensures !ok ==> unchanged(p)
  {
    hide HoldsPlaced, Placed, BoardValid, WithdrawnAmount, WithdrawalCap, PaidOut;
    ok, xlmOut, usdcOut, midBoard := false, 0, 0, p.topTraders;
    if lpTokens <= 0 {
      return;
    }
    var position := p.GetLpPosition(user);
    if position.None? || position.value.lpTokensMinted < lpTokens {
      return;
    }
    var pos := position.value;
    var currentXlm := p.GetLiquidity(XLM);
    var currentUsdc := p.GetLiquidity(USDC_SIM);
    var total := p.totalLpTokens;
    if total <= 0 {
      return;
    }
    var xlmAmount := WithdrawnAmount(lpTokens, currentXlm, total);
    var usdcAmount := WithdrawnAmount(lpTokens, currentUsdc, total);
    if xlmAmount <= 0 || usdcAmount <= 0 {
      return;
    }
    if xlmAmount > WithdrawalCap(pos.xlmDeposited) || usdcAmount > WithdrawalCap(pos.usdcDeposited) {
      return;
    }
    // The two mints that follow abort on these overflows; they read nothing the withdrawal
    // changes before them, so they are checked here.
    if !PayoutFits(p.balances, p.pnl, user, xlmAmount, usdcAmount) {
      return;
    }
    xlmOut, usdcOut := xlmAmount, usdcAmount;
    midBoard := ApplyWithdrawal(p, user, lpTokens, xlmOut, usdcOut);
    ok := true;
  }

  // ----- swap and try_swap -----

  /** The fee step of `swap`: splits the amount at the caller's fee rate; a positive fee is
      debited from the account's balance of the source token and added to the fees collected.
      Aborts when the split overflows or the debit does (the balance does not cover the fee).
      Returns the amount left to trade. */
  method ChargeSwapFee(p: Portfolio, fromToken: Symbol, user: Address, amount: i128, feeBps: u32)
    returns (ok: bool, swapAmount: i128)
    requires BalancesNonNegative(p.balances)
    modifies p`balances, p`pnl, p`metrics, p`totalFeesCollected
    ensures BalancesNonNegative(p.balances)
    ensures ok <==> && SwapFee(amount, feeBps).Some?
                    && (SwapFee(amount, feeBps).value.0 > 0 ==>
                          BalanceIn(old(p.balances), AssetOfSymbol(fromToken), user) >= SwapFee(amount, feeBps).value.0)
    ensures ok ==> swapAmount == SwapFee(amount, feeBps).value.1
    ensures ok && SwapFee(amount, feeBps).value.0 > 0 ==>
              var fee := SwapFee(amount, feeBps).value.0;
              && p.balances == Adjusted(old(p.balances), (user, AssetOfSymbol(fromToken)), -fee)
              && p.pnl == old(p.pnl)[user := SatSubI128(GetOr(old(p.pnl), user, 0), fee)]
              && p.metrics == CountBalanceUpdate(old(p.metrics))
              && p.totalFeesCollected == SatAddI128(old(p.totalFeesCollected), fee)
    ensures !ok || SwapFee(amount, feeBps).value.0 <= 0 ==> unchanged(p)
  {
    ok, swapAmount := false, 0;
    var split := SwapFee(amount, feeBps);
    if split.None? {
      return;
    }
    var fee := split.value.0;
    if fee > 0 {
      var paid := p.Debit(AssetOfSymbol(fromToken), user, fee);
      if !paid {
        return;
      }
      p.CollectFee(fee);
    }
    ok, swapAmount := true, split.value.1;
  }

  /** The validation of `try_swap`: a call that `TrySwapAccepts` refuses counts one more
      failed order and nothing else, and the contract returns 0 for it; an accepted call goes
      on to the trade, which is not part of this model, so nothing has changed yet. */
  method TrySwap(p: Portfolio, fromToken: Symbol, toToken: Symbol, amount: i128) returns (proceeds: bool)
    modifies p`metrics
    ensures proceeds <==> TrySwapAccepts(fromToken, toToken, amount)
    ensures proceeds ==> p.metrics == old(p.metrics)
    ensures !proceeds ==> p.metrics == old(p.metrics).(failedOrders := SatAddU32(old(p.metrics.failedOrders), 1))
  {
    var tokensOk := (fromToken == XLM_SYMBOL || fromToken == TRY_SWAP_USDC_SYMBOL)
                    && (toToken == XLM_SYMBOL || toToken == TRY_SWAP_USDC_SYMBOL);
    var pairOk := fromToken != toToken;
    var amountOk := amount > 0;
    if !(tokensOk && pairOk && amountOk) {
      p.IncFailedOrder();
      return false;
    }
    return true;
  }
}
