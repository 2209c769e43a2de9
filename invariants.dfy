/** The contract's stateless invariant checks (`invariant_*` on `Portfolio` that do not read the
    portfolio), with lemmas saying what each accepts in plain arithmetic terms. The two checks
    that read the portfolio live on the `Portfolio` class. */
module Invariants {
  import opened Numeric
  import opened Types
  import opened Lists

  /** The largest fee rate the contract allows: 1%, in basis points. */
  const MAX_FEE_BPS: int := 100

  /** `invariant_fee_bounds`: a fee is never negative, is at most 1% (rounded down) of a
      positive amount, and is zero on a zero amount. The 1% bound is computed with a plain
      i128 multiplication, which aborts on overflow, so the check is defined for amounts
      whose hundredfold fits in i128. */
  predicate InvariantFeeBounds(amount: int, fee: int)
    requires IsI128(amount) && IsI128(fee)
    requires amount > 0 ==> IsI128(amount * MAX_FEE_BPS)
  {
    if fee < 0 then false
    else if amount > 0 then fee <= (amount * MAX_FEE_BPS) / 10000
    else if amount == 0 && fee != 0 then false
    else true
  }

  /** `invariant_amm_constant_product`: reserves after are non-negative and the product of the
      reserves, each cast to u128 and multiplied with saturation, does not increase. */
  predicate InvariantAmmConstantProduct(xlmBefore: int, usdcBefore: int, xlmAfter: int, usdcAfter: int)
    requires IsI128(xlmBefore) && IsI128(usdcBefore) && IsI128(xlmAfter) && IsI128(usdcAfter)
  {
    if xlmAfter < 0 || usdcAfter < 0 then false
    else
      var kBefore := SatMulU128(I128AsU128(xlmBefore), I128AsU128(usdcBefore));
      var kAfter := SatMulU128(I128AsU128(xlmAfter), I128AsU128(usdcAfter));
      kAfter <= kBefore
  }

  /** `invariant_balance_update_consistency`: before, minus the debit, plus the credit (both
      saturating) is the expected balance. */
  predicate InvariantBalanceUpdateConsistency(before: int, debit: int, credit: int, expectedAfter: int)
    requires IsI128(before) && IsI128(debit) && IsI128(credit)
  {
    SatAddI128(SatSubI128(before, debit), credit) == expectedAfter
  }

  /** `invariant_non_negative_balances`. */
  predicate InvariantNonNegativeBalances(balance: int)
  {
    balance >= 0
  }

  /** `invariant_metrics_monotonic`: neither the trade counter nor the failed-order counter went down. */
  predicate InvariantMetricsMonotonic(previousTrades: int, currentTrades: int, previousFailed: int, currentFailed: int)
  {
    !(currentTrades < previousTrades || currentFailed < previousFailed)
  }

  /** `invariant_state_monotonicity`: neither the version nor the timestamp went down. */
  predicate InvariantStateMonotonicity(previousVersion: int, currentVersion: int, previousTimestamp: int, currentTimestamp: int)
  {
    !(currentVersion < previousVersion) && !(currentTimestamp < previousTimestamp)
  }

  /** `invariant_badge_uniqueness`: a badge list is rejected only when longer than seven. */
  predicate InvariantBadgeUniqueness(badges: seq<Badge>)
  {
    !(|badges| > 7)
  }

  /** What the fee check accepts: for a positive amount, exactly the fees in [0, floor(amount / 100)];
      for a zero amount, only zero; for a negative amount, every non-negative fee. */
  lemma FeeBoundsMeaning(amount: int, fee: int)
    requires IsI128(amount) && IsI128(fee)
    requires amount > 0 ==> IsI128(amount * MAX_FEE_BPS)
    ensures amount > 0 ==> (InvariantFeeBounds(amount, fee) <==> 0 <= fee <= amount / 100)
    ensures amount == 0 ==> (InvariantFeeBounds(amount, fee) <==> fee == 0)
    ensures amount < 0 ==> (InvariantFeeBounds(amount, fee) <==> fee >= 0)
  {
    if amount > 0 {
      var q, r := amount / 100, amount % 100;
      assert amount * MAX_FEE_BPS == q * 10000 + r * 100;
    }
  }

  /** When the product before the swap does not saturate u128, the constant-product check
      accepts exactly the non-negative reserves whose product has not grown. */
  lemma AmmCheckMeaning(xlmBefore: int, usdcBefore: int, xlmAfter: int, usdcAfter: int)
    requires IsI128(xlmAfter) && IsI128(usdcAfter)
    requires 0 <= xlmBefore <= I128_MAX && 0 <= usdcBefore <= I128_MAX
    requires xlmBefore * usdcBefore < U128_MAX
    ensures InvariantAmmConstantProduct(xlmBefore, usdcBefore, xlmAfter, usdcAfter)
            <==> xlmAfter >= 0 && usdcAfter >= 0 && xlmAfter * usdcAfter <= xlmBefore * usdcBefore
  {
    if xlmAfter >= 0 && usdcAfter >= 0 {
      var kBefore := SatMulU128(xlmBefore, usdcBefore);
      var kAfter := SatMulU128(xlmAfter, usdcAfter);
      assert kBefore == xlmBefore * usdcBefore;
      if xlmAfter * usdcAfter > U128_MAX {
        assert kAfter == U128_MAX > kBefore;
      } else {
        assert kAfter == xlmAfter * usdcAfter;
      }
    }
  }

  /** With no saturation the consistency check accepts exactly before - debit + credit. */
  lemma BalanceUpdateConsistencyMeaning(before: int, debit: int, credit: int, expectedAfter: int)
    requires IsI128(before) && IsI128(debit) && IsI128(credit)
    requires IsI128(before - debit) && IsI128(before - debit + credit)
    ensures InvariantBalanceUpdateConsistency(before, debit, credit, expectedAfter)
            <==> expectedAfter == before - debit + credit
  {
  }

  /** Both monotonicity checks chain: a state that passed against its predecessor, which passed
      against its own, passes against the first; and any state passes against itself. */
  lemma StateMonotonicityChains(v0: int, v1: int, v2: int, t0: int, t1: int, t2: int)
    ensures InvariantStateMonotonicity(v0, v0, t0, t0)
    ensures InvariantStateMonotonicity(v0, v1, t0, t1) && InvariantStateMonotonicity(v1, v2, t1, t2)
            ==> InvariantStateMonotonicity(v0, v2, t0, t2)
    ensures InvariantStateMonotonicity(v0, v1, t0, t1) <==> v0 <= v1 && t0 <= t1
  {
  }

  /** The same for the metrics check: passing it step by step means passing it across the steps. */
  lemma MetricsMonotonicChains(n0: int, n1: int, n2: int, f0: int, f1: int, f2: int)
    ensures InvariantMetricsMonotonic(n0, n0, f0, f0)
    ensures InvariantMetricsMonotonic(n0, n1, f0, f1) && InvariantMetricsMonotonic(n1, n2, f1, f2)
            ==> InvariantMetricsMonotonic(n0, n2, f0, f2)
    ensures InvariantMetricsMonotonic(n0, n1, f0, f1) <==> n0 <= n1 && f0 <= f1
  {
  }

  /** The distinct badges of a list, gathered from the front. */
  function BadgeSet(bs: seq<Badge>): set<Badge>
  {
    if |bs| == 0 then {} else BadgeSet(bs[..|bs| - 1]) + {bs[|bs| - 1]}
  }

  lemma {:induction false} BadgeSetMembers(bs: seq<Badge>)
    ensures forall b :: b in BadgeSet(bs) <==> b in bs
  {
    if |bs| > 0 {
      BadgeSetMembers(bs[..|bs| - 1]);
      assert bs == bs[..|bs| - 1] + [bs[|bs| - 1]];
    }
  }

  /** A list without repeats has as many distinct badges as entries. */
  lemma {:induction false} BadgeSetOfDistinct(bs: seq<Badge>)
    requires NoDuplicates(bs)
    ensures |BadgeSet(bs)| == |bs|
  {
    if |bs| > 0 {
      var init := bs[..|bs| - 1];
      BadgeSetOfDistinct(init);
      BadgeSetMembers(init);
      assert bs[|bs| - 1] !in init;
    }
  }

  /** What the uniqueness check decides: a list without repeats always passes, since there are
      only six badge kinds, but the check only counts, so a list that repeats a badge passes too. */
  lemma BadgeUniquenessMeaning(bs: seq<Badge>)
    ensures NoDuplicates(bs) ==> |bs| <= |AllBadges| && InvariantBadgeUniqueness(bs)
    ensures InvariantBadgeUniqueness([FirstTrade, FirstTrade]) && !NoDuplicates([FirstTrade, FirstTrade])
  {
    if NoDuplicates(bs) {
      BadgeSetOfDistinct(bs);
      var all := {FirstTrade, Trader, WealthBuilder, LiquidityProvider, Diversifier, Consistency};
      var s := BadgeSet(bs);
      assert s <= all by {
        forall b | b in s
          ensures b in all
        {
          match b
          case FirstTrade =>
          case Trader =>
          case WealthBuilder =>
          case LiquidityProvider =>
          case Diversifier =>
          case Consistency =>
        }
      }
      assert |all| == 6;
      assert all == s + (all - s);
    }
    assert [FirstTrade, FirstTrade][0] == [FirstTrade, FirstTrade][1];
  }
}
