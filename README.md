# SwapTrade portfolio and liquidity pool, modelled in Dafny

SwapTrade is a Soroban smart contract. It keeps a simulated trading portfolio for every
account, plus one XLM/"USDCSIM" constant-product liquidity pool. All state sits in one
aggregate, `Portfolio`. It holds:

- per-(account, asset) `i128` balances, and a per-account PnL figure that debits and mints move;
- trade counters and a set-once badge map, plus the pair and ledger-height lists behind the
  badge rules;
- aggregate statistics and a top-100 leaderboard sorted by PnL;
- the pool's two reserves, the per-account LP positions and the LP token supply.

The contract's entry points load the aggregate, change it and store it again. A Rust
`assert!`, an overflow of plain arithmetic or a `panic!` aborts the whole call, and the call
then leaves nothing behind.

The model has these parts:

- `Portfolio` is a Dafny class (`portfolio.dfy`). It has the struct's fields, and every
  mutating method names the fields it changes.
- An abort is modelled as `ok == false` with the portfolio unchanged. Every abort condition
  of an entry point is checked before its first change.
- The entry points `add_liquidity`, `remove_liquidity`, the fee step of `swap`, the
  validation of `try_swap` and `get_lp_positions` are methods over a `Portfolio`
  (`contract.dfy`).
- The Babylonian square-root loop of `add_liquidity` is a `while` loop (`sqrt.dfy`). It is
  proved against a recursive specification of the same iteration, and a converged result is
  proved to be the floor square root.
- The bubble sort of the leaderboard is a nested loop over a sequence (`leaderboard.dfy`). It
  is proved to produce a permutation ordered highest PnL first.
- The pure arithmetic is kept apart: LP share and withdrawal amounts (`lpmath.dfy`), the fee
  split and swap validation (`swap.dfy`), and the `invariant_*` predicates (`invariants.dfy`).
- `i128`, `u128` and `u32` are bounded integers (`numeric.dfy`). Saturating operations,
  truncating division and the `as` casts are written out. Plain `+`, `-` and `*` abort on
  overflow, as they do in a build with overflow checks.

## Model

| member | source | states |
|---|---|---|
| Types.AssetOfSymbol | swaptrade-contracts/counter/src/lib.rs:155-159 | "XLM" names the native asset and every other symbol names the custom token of that symbol |
| PortfolioModel.MintsAccumulate | swaptrade-contracts/counter/portfolio.rs:177-189 | successful mints of several amounts to one key raise its balance by their sum, starting from 0 when the key was never touched, and leave every other key alone |
| PortfolioModel.AdjustedStaysNonNegative | swaptrade-contracts/counter/portfolio.rs:159-166 | a balance change that leaves the changed balance non-negative keeps every balance non-negative |
| PortfolioModel.TransferMovesAmount | swaptrade-contracts/counter/portfolio.rs:132-142 | between two different assets a transfer moves exactly the amount, so the sum of the two balances is kept; a transfer of an asset to itself changes nothing; no other balance moves and none becomes negative |
| PortfolioModel.WealthMultiplierMatchesAward | swaptrade-contracts/counter/portfolio.rs:345-351 | the corrected WealthBuilder multiplier (0 with no initial balance, the quotient clamped into u32 otherwise) reaches 10 exactly when the award rule (initial > 0 and PnL >= 10 x initial) holds |
| PortfolioModel.WealthProgressAsWrittenDisagreesWithAward | swaptrade-contracts/counter/portfolio.rs:405-411 | the progress as computed disagrees with the award rule on three concrete inputs (see Findings) |
| PortfolioModel.WealthMultiplierAsWrittenInRange | swaptrade-contracts/counter/portfolio.rs:405-411 | when an initial balance is recorded and the PnL is a non-negative multiple of it below 2^32, the progress as computed is the quotient and reaches 10 exactly when the award rule holds |
| PortfolioModel.PairKeyIsSourceSymbol | swaptrade-contracts/counter/portfolio.rs:455-458 | the pair key is the source symbol alone: one source traded to two targets gives one key, and the two directions of a pair give different keys |
| PortfolioModel.HeldAmongInRankOrder | swaptrade-contracts/counter/portfolio.rs:443-447 | scanning the badge kinds in declaration order lists every held badge exactly once, in increasing declaration rank |
| PortfolioModel.GrantOnCheckGrantsExactly | swaptrade-contracts/counter/portfolio.rs:335-370 | after the five conditional awards the account holds exactly what it held plus every badge whose rule holds; no other account changes; the map still stores only `true` |
| PortfolioModel.RememberKeepsListsDistinct | swaptrade-contracts/counter/portfolio.rs:292-331 | remembering a value in an account's list keeps the old list as a prefix, grows it by at most one, ends with the value present, leaves other accounts alone and keeps every list free of repeats |
| PortfolioModel.Portfolio.constructor | swaptrade-contracts/counter/portfolio.rs:88-112 | a new portfolio has every map and list empty and every counter 0, and satisfies the invariant |
| PortfolioModel.Portfolio.BalanceOf | swaptrade-contracts/counter/portfolio.rs:265-268 | the stored balance of the (account, asset) key, 0 for a key never touched, and never negative while no stored balance is |
| PortfolioModel.Portfolio.BalanceOfIsNonNegative | swaptrade-contracts/counter/portfolio.rs:789-791 | under the invariant, every balance `balance_of` reports passes `invariant_non_negative_balances` |
| PortfolioModel.Portfolio.HasBadge | swaptrade-contracts/counter/portfolio.rs:246-249 | a badge is held exactly when the badge map stores `true` for the (account, badge) key; an absent key means not held |
| PortfolioModel.Portfolio.GetLpPosition | swaptrade-contracts/counter/portfolio.rs:628-630 | there is a position exactly when one is stored for the account, and it is the stored one |
| PortfolioModel.Portfolio.AssetConservationMeaning | swaptrade-contracts/counter/portfolio.rs:677-700 | the asset check passes exactly when both reserves `get_liquidity` reports and the accumulated LP fees are non-negative and the LP supply check passes |
| PortfolioModel.Portfolio.ValidPassesLpTokenConservation | swaptrade-contracts/counter/portfolio.rs:795-798 | every state the operations keep valid passes `invariant_lp_token_conservation` |
| PortfolioModel.Portfolio.GetLiquidity | swaptrade-contracts/counter/portfolio.rs:612-623 | XLM reads the XLM reserve, "USDCSIM" reads the USDC reserve, and every other asset reads 0 |
| PortfolioModel.Portfolio.GetBadgeProgress | swaptrade-contracts/counter/portfolio.rs:394-427 | one entry per badge kind, in declaration order; the WealthBuilder entry is the multiplier as the contract computes it (see Findings) |
| PortfolioModel.Portfolio.ProgressMatchesAwardRules | swaptrade-contracts/counter/portfolio.rs:394-427 | for Trader, LiquidityProvider, Diversifier and Consistency the progress reaches its target exactly when `check_and_award_badges` would award the badge; FirstTrade progress of 1 or more means FirstTrade is held; WealthBuilder agrees only when an initial balance is recorded and the PnL is a non-negative multiple of it below 2^32 |
| PortfolioModel.Portfolio.CorrectedBadgeProgress | swaptrade-contracts/counter/portfolio.rs:394-427 | the progress report with the corrected WealthBuilder multiplier: one entry per badge kind, in declaration order |
| PortfolioModel.Portfolio.CorrectedProgressMatchesAwardRules | swaptrade-contracts/counter/portfolio.rs:394-427 | with the corrected multiplier, for every badge except FirstTrade, WealthBuilder included, the progress reaches its target exactly when `check_and_award_badges` would award the badge; FirstTrade progress of 1 or more means FirstTrade is held |
| PortfolioModel.Portfolio.GetUserBadges | swaptrade-contracts/counter/portfolio.rs:430-450 | a badge is in the result exactly when it is held; each appears once, in declaration order; the result has at most six entries and passes `invariant_badge_uniqueness` |
| PortfolioModel.Portfolio.GetTopTraders | swaptrade-contracts/counter/portfolio.rs:487-501 | the result is the first min(limit, 100, length) leaderboard entries, so it is sorted, has distinct accounts and holds the highest PnLs on the board |
| PortfolioModel.Portfolio.Credit | swaptrade-contracts/counter/portfolio.rs:119-128 | a zero amount changes nothing; a negative amount or an overflowing balance aborts; otherwise exactly that balance rises by the amount and one balance update is counted |
| PortfolioModel.Portfolio.Debit | swaptrade-contracts/counter/portfolio.rs:159-174 | aborts unless 0 < amount <= balance; otherwise exactly that balance falls by the amount and stays non-negative, the PnL falls by it (saturating), one update is counted, and the update passes `invariant_balance_update_consistency` |
| PortfolioModel.Portfolio.Mint | swaptrade-contracts/counter/portfolio.rs:177-206 | aborts on a negative amount or when the balance or the PnL would overflow; otherwise both rise by the amount, the account is re-ranked on the leaderboard with its new PnL, and one update is counted |
| PortfolioModel.Portfolio.UpdateTopTraders | swaptrade-contracts/counter/portfolio.rs:539-570 | the leaderboard keeps its shape (at most 100 entries, one per account, sorted) and holds exactly the old entries with the account placed at its current PnL |
| PortfolioModel.Portfolio.TransferAsset | swaptrade-contracts/counter/portfolio.rs:132-155 | aborts unless 0 < amount <= source balance and the credited balance cannot overflow; otherwise the balances are those of the transfer, the PnL falls by the amount (saturating), two updates are counted, the volume grows by the amount, and the account is counted as new exactly when it has no trades |
| PortfolioModel.Portfolio.RecordTrade | swaptrade-contracts/counter/portfolio.rs:210-221 | aborts when the count is at u32::MAX; otherwise the trade count rises by exactly one, a trade is counted, and FirstTrade is awarded exactly when the previous count was 0 |
| PortfolioModel.Portfolio.RecordTradeWithAmountAsWritten | swaptrade-contracts/counter/portfolio.rs:225-228 | aborts with nothing changed when the count is at u32::MAX; otherwise the trade is counted, FirstTrade is held and the volume grows, but in the source's order an account is never counted as a new user or added to the active users (see Findings) |
| PortfolioModel.Portfolio.RecordTradeWithAmount | swaptrade-contracts/counter/portfolio.rs:225-228 | with the statistics taken first, an account's first trade counts it as a user and an active user, and a later trade does not |
| PortfolioModel.Portfolio.AwardBadge | swaptrade-contracts/counter/portfolio.rs:232-249 | returns true exactly when the badge was not held; afterwards it is held and no other entry changes |
| PortfolioModel.Portfolio.IncFailedOrder | swaptrade-contracts/counter/portfolio.rs:284-286 | one more failed order (saturating), the other counters unchanged, and `invariant_metrics_monotonic` holds |
| PortfolioModel.Portfolio.TrackTradeForBadges | swaptrade-contracts/counter/portfolio.rs:292-331 | the pair key and the ledger height are each appended only when absent, and both lists stay free of repeats |
| PortfolioModel.Portfolio.CheckAndAwardBadges | swaptrade-contracts/counter/portfolio.rs:335-370 | aborts exactly when the tenfold initial balance overflows; otherwise the badges are the old ones plus each badge whose rule holds, and the map stays consistent with the trade counts |
| PortfolioModel.Portfolio.RecordLpDeposit | swaptrade-contracts/counter/portfolio.rs:373-376 | the account's deposit count rises by one (saturating), so it is at least 1 afterwards |
| PortfolioModel.Portfolio.RecordInitialBalance | swaptrade-contracts/counter/portfolio.rs:379-384 | a positive amount is recorded only when none is recorded yet; a recorded value is never replaced |
| PortfolioModel.Portfolio.UpdateStatsOnTrade | swaptrade-contracts/counter/portfolio.rs:512-535 | an account without trades is counted and appended to the active users once; the volume grows by the amount (saturating) |
| PortfolioModel.Portfolio.AddPoolLiquidity | swaptrade-contracts/counter/portfolio.rs:591-594 | both reserves grow by their amounts (saturating) |
| PortfolioModel.Portfolio.CollectFee | swaptrade-contracts/counter/portfolio.rs:597-599 | the fee total grows by the fee (saturating) |
| PortfolioModel.Portfolio.SetLiquidity | swaptrade-contracts/counter/portfolio.rs:601-610 | setting XLM or "USDCSIM" is read back by `get_liquidity`; any other asset leaves both reserves alone |
| PortfolioModel.Portfolio.SetLpPosition | swaptrade-contracts/counter/portfolio.rs:633-635 | the position is stored for the account and no other position changes |
| PortfolioModel.Portfolio.AddTotalLpTokens | swaptrade-contracts/counter/portfolio.rs:643-645 | the supply grows by the minted amount (saturating) and passes `invariant_lp_token_conservation` |
| PortfolioModel.Portfolio.SubtractTotalLpTokens | swaptrade-contracts/counter/portfolio.rs:648-653 | the supply shrinks by the burnt amount (saturating), is floored at 0, and passes `invariant_lp_token_conservation` |
| PortfolioModel.Portfolio.AddLpFees | swaptrade-contracts/counter/portfolio.rs:656-658 | the accumulated LP fees grow by the amount (saturating) |
| Invariants.FeeBoundsMeaning | swaptrade-contracts/counter/portfolio.rs:732-752 | for a positive amount the check accepts exactly the fees in [0, amount / 100]; for a zero amount only 0; for a negative amount every non-negative fee |
| Invariants.AmmCheckMeaning | swaptrade-contracts/counter/portfolio.rs:757-774 | when the old product does not saturate, the check accepts exactly the non-negative reserves whose product has not grown |
| Invariants.BalanceUpdateConsistencyMeaning | swaptrade-contracts/counter/portfolio.rs:779-785 | without saturation, the check accepts exactly before - debit + credit |
| Invariants.StateMonotonicityChains | swaptrade-contracts/counter/portfolio.rs:715-727 | the check accepts exactly a version and a timestamp that did not go down; it accepts any unchanged state, and two passing steps make a passing step |
| Invariants.MetricsMonotonicChains | swaptrade-contracts/counter/portfolio.rs:802-808 | the check accepts exactly trade and failed-order counters that did not go down; it accepts unchanged counters, and two passing steps make a passing step |
| Invariants.BadgeUniquenessMeaning | swaptrade-contracts/counter/portfolio.rs:812-820 | a badge list without repeats has at most six entries and always passes; the check only counts, so a list repeating a badge passes too |
| Lists.Contains | swaptrade-contracts/counter/portfolio.rs:298-306 | the linear scan finds the value exactly when it is in the list |
| Lists.AppendIfAbsentKeepsDistinct | swaptrade-contracts/counter/portfolio.rs:308-311 | appending only when absent keeps the old list as a prefix, grows it by at most one, contains the value afterwards and keeps a repeat-free list repeat-free |
| Leaderboard.TraderIndexIsFirstEntry | swaptrade-contracts/counter/portfolio.rs:542-551 | the index found is that of the account's first entry, and there is none exactly when the account has no entry |
| Leaderboard.FindTrader | swaptrade-contracts/counter/portfolio.rs:542-551 | the scan returns the index of the account's first entry, if any |
| Leaderboard.PlacedKeepsBoardShape | swaptrade-contracts/counter/portfolio.rs:553-566 | placing keeps at most 100 entries with one per account; an existing entry takes the new PnL; a new account is appended below 100 entries and replaces the lowest entry of a full board only when its PnL is strictly higher |
| Leaderboard.BubblePass | swaptrade-contracts/counter/portfolio.rs:576-586 | one pass leaves the prefix's lowest PnL at its end, permutes the entries and leaves the suffix alone |
| Leaderboard.SortByPnl | swaptrade-contracts/counter/portfolio.rs:573-588 | the result is ordered highest PnL first and is a permutation of the input, so it keeps the accounts distinct |
| Leaderboard.UpdateBoard | swaptrade-contracts/counter/portfolio.rs:539-570 | the board keeps its shape and holds exactly the entries of the board with the account placed |
| IntegerSqrt.BabylonianSqrt | swaptrade-contracts/counter/src/lib.rs:420-442 | the loop aborts exactly when the product is u128::MAX, where `guess + quotient` overflows; otherwise it returns the iteration's result, between 1 and (product + 1) / 2 |
| IntegerSqrt.LoopTurn | swaptrade-contracts/counter/src/lib.rs:432-441 | a turn overflows exactly on u128::MAX, and otherwise takes the loop to its next state |
| IntegerSqrt.FixedPointCharacterization | swaptrade-contracts/counter/src/lib.rs:432-436 | a guess is a fixed point of the step exactly when its square is at most n and n is below its square plus twice it |
| IntegerSqrt.ConvergedRootIsFloorSqrt | swaptrade-contracts/counter/src/lib.rs:432-441 | a loop that stops because the guess stopped changing has found the floor square root |
| IntegerSqrt.BabylonianConvergedIsFloorSqrt | swaptrade-contracts/counter/src/lib.rs:428-442 | the loop started with guess = n and previous guess 0 returns the floor square root when it converges |
| IntegerSqrt.BabylonianOfAMillion | swaptrade-contracts/counter/src/lib.rs:428-442 | on 1000 x 1000 the loop converges to 1000 |
| IntegerSqrt.StepInRange | swaptrade-contracts/counter/src/lib.rs:434-435 | for a guess between 1 and n the step stays between 1 and (n + 1) / 2, and `guess + n / guess` is at most n + 1 |
| LiquidityMath.LpTokensToMint | swaptrade-contracts/counter/src/lib.rs:420-460 | there is no amount exactly when the supply is 0 and the saturated product is u128::MAX, where the loop overflows; any amount fits in i128 |
| LiquidityMath.FirstDepositMintsRoot | swaptrade-contracts/counter/src/lib.rs:420-442 | on an empty supply the mint is the loop's positive root of xlm x usdc, and is the floor square root when the loop converges |
| LiquidityMath.FirstDepositOfAThousandEach | swaptrade-contracts/counter/src/lib.rs:420-442 | a first deposit of 1000 and 1000 mints 1000 |
| LiquidityMath.LaterDepositMintsLargestProportionalShare | swaptrade-contracts/counter/src/lib.rs:443-460 | with non-empty reserves and no saturation, the mint is the largest k with k x reserve <= amount x total on both axes |
| LiquidityMath.LaterDepositIntoEmptyReserveMintsNothing | swaptrade-contracts/counter/src/lib.rs:447-459 | a later deposit into a pool with an empty reserve mints nothing, so `add_liquidity` refuses it |
| LiquidityMath.WithdrawalIsProportional | swaptrade-contracts/counter/src/lib.rs:533-534 | without saturation a withdrawal returns floor(lp x reserve / total), and burning at most the whole supply returns at most the whole reserve |
| LiquidityMath.WithdrawalCap | swaptrade-contracts/counter/src/lib.rs:544-546 | the cap is at least the deposit and at most 1% above it, or i128::MAX / 100 when the hundred-and-one-fold saturates |
| LiquidityMath.FullWithdrawalReturnsFirstDeposit | swaptrade-contracts/counter/src/lib.rs:533-546 | the sole provider burning all its tokens gets back exactly its deposit, which passes the 101% check |
| SwapRules.SwapFee | swaptrade-contracts/counter/src/lib.rs:146-150 | fee + amount to trade = amount; the split aborts exactly when `amount * fee_bps` or `amount - fee` overflows i128 |
| SwapRules.FeeWithinBounds | swaptrade-contracts/counter/src/lib.rs:146-150 | for a rate of at most 1% and a non-negative amount the split never aborts, the fee is floor(amount x fee_bps / 10000), and it passes `invariant_fee_bounds` |
| SwapRules.FeeBoundsNeedOnePercentCap | swaptrade-contracts/counter/src/lib.rs:146-150 | on an amount of 10000 the fee passes `invariant_fee_bounds` exactly when the rate is at most 100 basis points |
| SwapRules.TrySwapAcceptsExactlyTwoDirections | swaptrade-contracts/counter/src/lib.rs:194-199 | `try_swap` accepts exactly XLM to "USDC-SIM" and back, with a positive amount; the pool's own "USDCSIM" is refused |
| Contract.DepositMovesFundsIntoPool | swaptrade-contracts/counter/src/lib.rs:465-469 | a deposit lowers each of the account's two balances by its amount, and without saturation each balance plus its reserve is unchanged; nothing else moves and nothing becomes negative |
| Contract.PayoutMovesFundsOutOfPool | swaptrade-contracts/counter/src/lib.rs:549-554 | a payout raises each of the account's two balances by its amount, and without saturation each balance plus its reserve is unchanged; nothing else moves |
| Contract.WithdrawalUndoesDeposit | swaptrade-contracts/counter/src/lib.rs:557-566 | withdrawing the minted tokens and the deposited amounts restores the previous position, or a zero position for a new provider, which is kept rather than removed |
| Contract.DepositCreditsMintedTokens | swaptrade-contracts/counter/src/lib.rs:472-489 | a deposit adds the minted tokens to the position (without saturation) and the position keeps its owner |
| Contract.LpPositionsOf | swaptrade-contracts/counter/src/lib.rs:579-591 | at most one position; empty exactly when the account has none; otherwise the account's stored position |
| Contract.MintForDeposit | swaptrade-contracts/counter/src/lib.rs:420-462 | the mint computation succeeds exactly when the share math yields an amount, and returns that amount |
| Contract.PayDeposit | swaptrade-contracts/counter/src/lib.rs:465-466 | both debits: the balances lose the deposit, the PnL falls by both amounts (saturating), and two updates are counted |
| Contract.BookDeposit | swaptrade-contracts/counter/src/lib.rs:469-493 | the reserves grow by the deposit, the position takes the deposit and the mint, the supply grows by the mint, and the deposit count by one |
| Contract.ApplyDeposit | swaptrade-contracts/counter/src/lib.rs:465-494 | after the checks, the debits, the pool bookkeeping and the badge re-check together give `DepositApplied` |
| Contract.AddLiquidity | swaptrade-contracts/counter/src/lib.rs:389-502 | succeeds exactly when both amounts are positive, the rate limiter admits the call, both balances cover the amounts, the mint is positive and the badge check does not overflow; it then mints the share-math amount and the portfolio is as `DepositApplied` describes; otherwise nothing changes |
| Contract.ReleaseReserves | swaptrade-contracts/counter/src/lib.rs:549-550 | each reserve becomes its old value less the payout (saturating) |
| Contract.PayOne | swaptrade-contracts/counter/src/lib.rs:553-554 | one payout mint: the balance and the PnL rise by the amount, the account is re-ranked, and one update is counted |
| Contract.PayWithdrawal | swaptrade-contracts/counter/src/lib.rs:553-554 | both payout mints: the balances and the PnL rise by both amounts, two updates are counted, and the leaderboard is re-ranked after each mint |
| Contract.BookWithdrawal | swaptrade-contracts/counter/src/lib.rs:557-567 | the reduced position is stored and the supply falls by the burnt tokens, floored at 0 |
| Contract.ApplyWithdrawal | swaptrade-contracts/counter/src/lib.rs:549-567 | after the checks, in the contract's order: reserves, the two mints, the position and the supply |
| Contract.RemoveLiquidity | swaptrade-contracts/counter/src/lib.rs:506-575 | succeeds exactly when the burn is positive and covered by a position, the supply is positive, both payouts are positive and within 101% of the deposits, and the mints do not overflow; it then returns floor(lp x reserve / total) of each asset and the portfolio is as `WithdrawalApplied` describes; otherwise nothing changes |
| Contract.ChargeSwapFee | swaptrade-contracts/counter/src/lib.rs:146-164 | aborts when the split overflows or the balance does not cover a positive fee; otherwise returns amount - fee, and only a positive fee is debited (the PnL falling by it too) and added to the fees collected |
| Contract.TrySwap | swaptrade-contracts/counter/src/lib.rs:187-213 | a refused call counts exactly one more failed order and changes nothing else; an accepted call has changed nothing yet |

## Left out

- Storage, authorisation, events and logging: the storage load and store around each entry
  point, `require_auth`, the event blocks, admin and pause, version and migration.
- The rate limiter and user tiers: their source is not part of this model. The LP limiter's
  verdict (`withinLpLimit`) and the swap fee rate (`feeBps`) are inputs, and the
  `record_lp_op` bookkeeping after a deposit or withdrawal is not modelled.
- `perform_swap` and the rest of `swap` and `try_swap` after the fee step and the
  validation: the trade's output comes from a module that is not part of this model. The
  model also leaves out `swap` calling `perform_swap` twice and the `record_trade` that
  follows.
- The `transactions` field and `get_user_transactions`: they are not part of the core.
- The first `get_user_badges` (portfolio.rs:252-262) is a second definition under the same
  name. It lists only FirstTrade. The model follows the complete one at portfolio.rs:430-450.
- `get_all_lp_positions` (portfolio.rs:666-670) is a stub that always returns an empty list.
  `invariant_authorization_checks` always returns true. Neither is modelled.
- Getters that only return a field (`get_portfolio`, `get_metrics`, `get_total_users`,
  `get_total_trading_volume`, `get_active_users_count`, `get_pool_stats`,
  `get_total_lp_tokens`, `get_lp_fees_accumulated`) are field reads of the class, not
  separate members. `get_total_user_balance` (portfolio.rs:387-390) returns the PnL, and the
  model uses the PnL in its place.
- `invariant_asset_conservation` is transcribed, but reserve non-negativity is not a
  maintained invariant. A withdrawal is proved to take at most the reserve only when the
  burnt tokens do not exceed the supply (`WithdrawalIsProportional`). Relating the positions
  to the supply would need a sum over all positions, which the model does not keep.
- `record_initial_balance` (portfolio.rs:379-384) has no caller in the files modelled, and
  no entry point of the model calls `RecordInitialBalance`. No account therefore ever has an
  initial balance, WealthBuilder is never awarded, and the overflow abort of
  `CheckAndAwardBadges` (`initial * 10`) cannot happen from the entry points. The method and
  the abort are still modelled, for a caller outside these files.
- Leaderboard.UpdateBoard: the new board is stated as sorted, and as holding the old board's
  entries with the account placed, in some order. It is not given as one fixed sequence,
  because the order the bubble sort leaves among equal PnLs is not modelled. `Mint`,
  `UpdateTopTraders` and `RemoveLiquidity` inherit this.
- Contract.AddLiquidity: the LP rate-limit check comes after the two amount checks in the
  source. Both orders abort the call without changes, so the model tests all three together.

## Findings

| source | as written | input that shows it | evidently intended | confidence | as-written member | corrected member |
|---|---|---|---|---|---|---|
| swaptrade-contracts/counter/portfolio.rs:225-228 | `record_trade_with_amount` calls `record_trade` before `update_stats_on_trade`. The latter treats a trade count of 0 as a new user, but that count is already at least 1 by then. | any account's first call: `total_users` and `active_users` stay unchanged | an account's first trade counts it as a user and an active user | high, not executed | PortfolioModel.Portfolio.RecordTradeWithAmountAsWritten | PortfolioModel.Portfolio.RecordTradeWithAmount |
| swaptrade-contracts/counter/portfolio.rs:405-411 | The WealthBuilder progress divides the PnL by the initial balance, using 1 when none is recorded, and casts the quotient to `u32` by truncation. | PnL -20 with initial 10 shows 4294967294 although the badge is not earned; PnL 10 with no initial shows 10 although the badge cannot be earned (no initial balance is ever recorded by the entry points modelled, so this is the case every account is in); PnL 10 x 2^32 with initial 10 earns the badge but shows 0 | the progress reaches the target 10 exactly when `check_and_award_badges` would award WealthBuilder | high, not executed | PortfolioModel.WealthProgressAsWrittenDisagreesWithAward | PortfolioModel.Portfolio.CorrectedProgressMatchesAwardRules |
