/** The LP share arithmetic of `add_liquidity` and `remove_liquidity`: how many LP tokens a
    deposit mints and how much of each reserve a burn of LP tokens returns. Every amount
    enters as an i128, is cast to u128, multiplied with saturation and divided (rounding
    down), and the result is cast back to i128. */
module LiquidityMath {
  import opened Numeric
  import opened Types
  import opened IntegerSqrt

  /** The u128 product whose square root a first deposit mints (saturating). */
  function FirstDepositProduct(xlmAmount: int, usdcAmount: int): (p: int)
    requires 0 < xlmAmount <= I128_MAX && 0 < usdcAmount <= I128_MAX
    ensures 1 <= p <= U128_MAX
  {
    SatMulU128(xlmAmount, usdcAmount)
  }

  /** The tokens a later deposit could claim along one axis: amount * total / reserve,
      or 0 when that reserve is empty. */
  function AxisShare(amount: int, total: int, reserve: int): (s: int)
    requires 0 < amount <= I128_MAX && 0 < total <= I128_MAX && IsI128(reserve)
    ensures IsU128(s)
  {
    if reserve > 0 then SatMulU128(amount, total) / reserve else 0
  }

  /** LP tokens minted for depositing the two amounts into a pool with the given reserves and
      total LP supply. On an empty supply: the Babylonian root of the product; `None` when the
      root's loop aborts on overflow. Otherwise: the smaller of the two axis shares. The result
      is not yet checked for positivity; `add_liquidity` refuses a non-positive amount. */
  function LpTokensToMint(xlmAmount: int, usdcAmount: int, reserveXlm: int, reserveUsdc: int, total: int): (r: Option<int>)
    requires 0 < xlmAmount <= I128_MAX && 0 < usdcAmount <= I128_MAX
    requires IsI128(reserveXlm) && IsI128(reserveUsdc) && 0 <= total <= I128_MAX
    ensures r.Some? ==> IsI128(r.value)
    ensures r.None? <==> total == 0 && FirstDepositProduct(xlmAmount, usdcAmount) == U128_MAX
  {
    if total == 0 then
      var product := FirstDepositProduct(xlmAmount, usdcAmount);
      if product == U128_MAX then None
      else Some(U128AsI128(Babylonian(product).root))
    else
      var xlmShare := AxisShare(xlmAmount, total, reserveXlm);
      var usdcShare := AxisShare(usdcAmount, total, reserveUsdc);
      Some(Min(U128AsI128(xlmShare), U128AsI128(usdcShare)))
  }

  /** Amount of one reserve returned for burning `lpTokens`: lpTokens * reserve / total. */
  function WithdrawnAmount(lpTokens: int, reserve: int, total: int): (a: int)
    requires 0 < lpTokens <= I128_MAX && IsI128(reserve) && 0 < total <= I128_MAX
    ensures IsI128(a)
  {
    U128AsI128(SatMulU128(lpTokens, I128AsU128(reserve)) / total)
  }

  /** The largest amount of one asset a withdrawal may return: 101% of what the position
      deposited, computed as deposited * 101 (saturating) / 100 rounding toward zero. */
  function WithdrawalCap(deposited: int): (cap: int)
    requires IsI128(deposited)
    ensures 0 <= deposited && deposited * 101 <= I128_MAX ==> deposited <= cap <= deposited + deposited / 100
    ensures deposited * 101 > I128_MAX ==> cap == I128_MAX / 100
  {
    TruncDiv(SatMulI128(deposited, 101), 100)
  }

  /** A first deposit mints a positive amount whenever its loop does not abort; the amount is
      the loop's root, and when the loop converged it is floor(sqrt(xlm * usdc)) of the exact
      (unsaturated) product. */
  lemma FirstDepositMintsRoot(xlmAmount: int, usdcAmount: int, reserveXlm: int, reserveUsdc: int)
    requires 0 < xlmAmount <= I128_MAX && 0 < usdcAmount <= I128_MAX
    requires IsI128(reserveXlm) && IsI128(reserveUsdc)
    requires xlmAmount * usdcAmount < U128_MAX
    ensures var r := LpTokensToMint(xlmAmount, usdcAmount, reserveXlm, reserveUsdc, 0);
            && r.Some? && r.value >= 1
            && r.value == Babylonian(xlmAmount * usdcAmount).root
            && (Babylonian(xlmAmount * usdcAmount).converged ==> IsFloorSqrt(xlmAmount * usdcAmount, r.value))
  {
    var product := xlmAmount * usdcAmount;
    assert FirstDepositProduct(xlmAmount, usdcAmount) == product;
    BabylonianConvergedIsFloorSqrt(product);
  }

  /** Depositing 1000 XLM and 1000 USDCSIM as the first provider mints 1000 LP tokens. */
  lemma FirstDepositOfAThousandEach()
    ensures LpTokensToMint(1000, 1000, 0, 0, 0) == Some(1000)
  {
    BabylonianOfAMillion();
  }

  /** A later deposit mints the largest k with k * reserve <= amount * total on both axes: it
      never claims more than its proportional share of either reserve, and rounding gives
      away less than one token. (Stated when neither product saturates.) */
  lemma LaterDepositMintsLargestProportionalShare(xlmAmount: int, usdcAmount: int, reserveXlm: int, reserveUsdc: int, total: int, k: int)
    requires 0 < xlmAmount <= I128_MAX && 0 < usdcAmount <= I128_MAX
    requires 0 < reserveXlm <= I128_MAX && 0 < reserveUsdc <= I128_MAX && 0 < total <= I128_MAX
    requires xlmAmount * total <= I128_MAX && usdcAmount * total <= I128_MAX
    ensures var m := LpTokensToMint(xlmAmount, usdcAmount, reserveXlm, reserveUsdc, total).value;
            k * reserveXlm <= xlmAmount * total && k * reserveUsdc <= usdcAmount * total <==> k <= m
  {
    DivAtLeast(xlmAmount * total, reserveXlm, k);
    DivAtLeast(usdcAmount * total, reserveUsdc, k);
    DivAtLeast(xlmAmount * total, reserveXlm, I128_MAX + 1);
    DivAtLeast(usdcAmount * total, reserveUsdc, I128_MAX + 1);
  }

  /** A later deposit into a pool one of whose reserves is empty mints nothing. */
  lemma LaterDepositIntoEmptyReserveMintsNothing(xlmAmount: int, usdcAmount: int, reserveXlm: int, reserveUsdc: int, total: int)
    requires 0 < xlmAmount <= I128_MAX && 0 < usdcAmount <= I128_MAX
    requires IsI128(reserveXlm) && IsI128(reserveUsdc) && 0 < total <= I128_MAX
    requires reserveXlm <= 0 || reserveUsdc <= 0
    ensures LpTokensToMint(xlmAmount, usdcAmount, reserveXlm, reserveUsdc, total).value <= 0
  {
  }

  /** Without saturation a withdrawal returns floor(lpTokens * reserve / total); burning at most
      the whole supply returns at most the whole reserve. */
  lemma WithdrawalIsProportional(lpTokens: int, reserve: int, total: int)
    requires 0 < lpTokens <= total <= I128_MAX && 0 <= reserve <= I128_MAX
    requires lpTokens * reserve <= U128_MAX
    ensures WithdrawnAmount(lpTokens, reserve, total) == lpTokens * reserve / total
    ensures 0 <= WithdrawnAmount(lpTokens, reserve, total) <= reserve
  {
    var p := lpTokens * reserve;
    var q := p / total;
    assert 0 <= q by {
      MulLe(0, lpTokens, reserve);
    }
    assert p <= total * reserve by {
      MulLe(lpTokens, total, reserve);
    }
    assert q <= reserve by {
      DivAtLeast(p, total, reserve + 1);
      assert (reserve + 1) * total == reserve * total + total;
    }
    assert SatMulU128(lpTokens, I128AsU128(reserve)) == p;
  }

  /** Burning every LP token minted by a first deposit returns exactly the deposit, which the
      101% cap admits: a first deposit followed by a full withdrawal never pays out more than
      was put in. */
  lemma FullWithdrawalReturnsFirstDeposit(minted: int, deposited: int)
    requires 0 < minted <= I128_MAX && 0 < deposited <= I128_MAX
    requires minted * deposited <= U128_MAX && deposited * 101 <= I128_MAX
    ensures WithdrawnAmount(minted, deposited, minted) == deposited
    ensures WithdrawnAmount(minted, deposited, minted) <= WithdrawalCap(deposited)
  {
    assert minted * deposited / minted == deposited by {
      DivAtLeast(minted * deposited, minted, deposited);
      DivAtLeast(minted * deposited, minted, deposited + 1);
      assert (deposited + 1) * minted == deposited * minted + minted;
    }
  }
}
