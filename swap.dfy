/** The parts of the contract's `swap` and `try_swap` entry points that do not depend on the
    constant-product trade itself: the fee split charged on the input amount, and the checks
    `try_swap` makes before it trades. */
module SwapRules {
  import opened Numeric
  import opened Types
  import opened Invariants

  /** The fee split of `swap`: fee = amount * feeBps / 10000, rounded toward zero, and the
      amount left to trade is amount - fee. Both are plain i128 arithmetic: `None` when either
      overflows, which aborts the call. The fee rate is the caller's tier rate, a `u32`. */
  function SwapFee(amount: int, feeBps: int): (r: Option<(int, int)>)
    requires IsI128(amount) && IsU32(feeBps)
    ensures r.Some? ==> r.value.0 + r.value.1 == amount && IsI128(r.value.0) && IsI128(r.value.1)
    ensures r.None? <==> !IsI128(amount * feeBps) || !IsI128(amount - TruncDiv(amount * feeBps, 10000))
  {
    if !IsI128(amount * feeBps) then None
    else
      var fee := TruncDiv(amount * feeBps, 10000);
      if !IsI128(amount - fee) then None else Some((fee, amount - fee))
  }

  /** With a rate of at most 1% and a non-negative amount the split never aborts, the fee is
      floor(amount * feeBps / 10000), and it passes `invariant_fee_bounds`. */
  lemma FeeWithinBounds(amount: int, feeBps: int)
    requires 0 <= amount && IsI128(amount * MAX_FEE_BPS) && 0 <= feeBps <= MAX_FEE_BPS
    ensures SwapFee(amount, feeBps).Some?
    ensures SwapFee(amount, feeBps).value.0 == amount * feeBps / 10000
    ensures InvariantFeeBounds(amount, SwapFee(amount, feeBps).value.0)
  {
    MulLe(feeBps, MAX_FEE_BPS, amount);
    var fee := amount * feeBps / 10000;
    DivAtLeast(amount * feeBps, 10000, fee);
    DivAtLeast(amount * MAX_FEE_BPS, 10000, fee);
    DivAtLeast(amount * feeBps, 10000, amount + 1);
  }

  /** The 1% cap is also necessary: on an amount of 10000 the fee passes `invariant_fee_bounds`
      exactly when the rate is at most 100 basis points. */
  lemma FeeBoundsNeedOnePercentCap(feeBps: int)
    requires IsU32(feeBps)
    ensures SwapFee(10000, feeBps).Some?
    ensures InvariantFeeBounds(10000, SwapFee(10000, feeBps).value.0) <==> feeBps <= MAX_FEE_BPS
  {
    assert 10000 * feeBps / 10000 == feeBps;
  }

  /** `try_swap`'s validation: both symbols are "XLM" or "USDC-SIM", they differ, and the amount
      is positive. */
  predicate TrySwapAccepts(fromToken: Symbol, toToken: Symbol, amount: int)
  {
    && (fromToken == XLM_SYMBOL || fromToken == TRY_SWAP_USDC_SYMBOL)
    && (toToken == XLM_SYMBOL || toToken == TRY_SWAP_USDC_SYMBOL)
    && fromToken != toToken
    && amount > 0
  }

  /** `try_swap` accepts exactly the two directions between "XLM" and "USDC-SIM" with a positive
      amount; in particular the pool's own symbol "USDCSIM" is refused. */
  lemma TrySwapAcceptsExactlyTwoDirections(fromToken: Symbol, toToken: Symbol, amount: int)
    ensures TrySwapAccepts(fromToken, toToken, amount) <==>
              amount > 0 && ((fromToken == XLM_SYMBOL && toToken == TRY_SWAP_USDC_SYMBOL)
                             || (fromToken == TRY_SWAP_USDC_SYMBOL && toToken == XLM_SYMBOL))
    ensures !TrySwapAccepts(XLM_SYMBOL, USDC_SIM_SYMBOL, amount)
  {
    assert XLM_SYMBOL != TRY_SWAP_USDC_SYMBOL by { assert |XLM_SYMBOL| != |TRY_SWAP_USDC_SYMBOL|; }
    assert USDC_SIM_SYMBOL != TRY_SWAP_USDC_SYMBOL by { assert USDC_SIM_SYMBOL[4] != TRY_SWAP_USDC_SYMBOL[4]; }
    assert USDC_SIM_SYMBOL != XLM_SYMBOL by { assert |USDC_SIM_SYMBOL| != |XLM_SYMBOL|; }
  }
}
