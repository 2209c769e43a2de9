/** The bounded Babylonian integer square root that `add_liquidity` uses to mint the first
    depositor's LP tokens: start from the product itself, replace the guess by
    (guess + product / guess) / 2 until it stops changing or 100 steps have been taken. */
module IntegerSqrt {
  import opened Numeric

  const MAX_ITERATIONS: nat := 100

  /** One Babylonian step. */
  function Step(n: nat, g: nat): nat
    requires g >= 1
  {
    (g + n / g) / 2
  }

  /** g is the integer square root of n, rounded down. */
  ghost predicate IsFloorSqrt(n: nat, g: nat)
  {
    g * g <= n < (g + 1) * (g + 1)
  }

  /** The outcome of the loop: the final guess and whether it stopped because the guess no
      longer changed (rather than because the iteration cap was reached). */
  datatype Run = Run(root: nat, converged: bool)

  /** The loop of `add_liquidity`, continued from a state where the guess is `guess`, the
      previous guess is `prev` and `iterations` steps have been taken. */
  function BabylonianFrom(n: nat, guess: nat, prev: nat, iterations: nat): (r: Run)
    requires 1 <= guess <= n && iterations <= MAX_ITERATIONS
    decreases MAX_ITERATIONS - iterations
    ensures 1 <= r.root <= n
    ensures r.root == guess || r.root <= (n + 1) / 2
  {
    if guess == prev then Run(guess, true)
    else if iterations == MAX_ITERATIONS then Run(guess, false)
    else
      StepInRange(n, guess);
      BabylonianFrom(n, Step(n, guess), guess, iterations + 1)
  }

  /** One turn of the loop: a guess that differs from the previous one, before the cap, is
      replaced by the step. */
  lemma BabylonianFromStep(n: nat, guess: nat, prev: nat, iterations: nat)
    requires 1 <= guess <= n && iterations < MAX_ITERATIONS && guess != prev
    ensures 1 <= Step(n, guess) <= n
    ensures BabylonianFrom(n, guess, prev, iterations) == BabylonianFrom(n, Step(n, guess), guess, iterations + 1)
  {
    StepInRange(n, guess);
  }

  /** The loop started as the contract starts it: guess = n, previous guess = 0. */
  function Babylonian(n: nat): (r: Run)
    requires n >= 1
    ensures 1 <= r.root <= (n + 1) / 2
  {
    StepInRange(n, n);
    BabylonianFrom(n, n, 0, 0)
  }

  /** The square-root loop as the contract runs it on a u128 product. `guess + quotient` is a
      plain u128 addition: it overflows, aborting the call, exactly when the product is
      u128::MAX (the first step adds 1 to it); for every other product the loop returns the
      result of the iteration. */
  method BabylonianSqrt(product: int) returns (ok: bool, root: int)
    requires 1 <= product <= U128_MAX
    ensures ok <==> product < U128_MAX
    ensures ok ==> root == Babylonian(product).root
    ensures ok ==> 1 <= root <= (product + 1) / 2
  {
    var guess := product;
    var prevGuess := 0;
    var iterations := 0;
    ghost var run := Babylonian(product);
    while guess != prevGuess && iterations < 100
      invariant LoopState(product, guess, prevGuess, iterations, run)
      decreases MAX_ITERATIONS - iterations
    {
      LoopTurn(product, guess, prevGuess, iterations, run);
      prevGuess := guess;
      var quotient := product / guess;
      if guess + quotient > U128_MAX {
        return false, 0;
      }
      guess := (guess + quotient) / 2;
      assert guess == Step(product, prevGuess);
      if guess == 0 {
        // the step keeps every guess at 1 or more while the product is positive
        assert false;
      }
      iterations := iterations + 1;
    }
    return true, guess;
  }

  /** The state of the loop of `BabylonianSqrt` between turns: the guess stays between 1 and n,
      the first turn starts from guess = n and previous guess 0, a product of u128::MAX never
      gets past the first turn, and continuing the loop from here gives the loop's result. */
  ghost predicate LoopState(n: nat, guess: int, prev: int, iterations: int, run: Run)
  {
    && 0 <= iterations <= MAX_ITERATIONS && 1 <= guess <= n && 0 <= prev
    && (iterations == 0 ==> guess == n && prev == 0)
    && (iterations > 0 ==> n < U128_MAX)
    && BabylonianFrom(n, guess, prev, iterations) == run
  }

  /** One turn of the loop: `guess + n / guess` overflows u128 exactly when n is u128::MAX, and
      otherwise the step leads to the next loop state. */
  lemma LoopTurn(n: nat, guess: nat, prev: nat, iterations: nat, run: Run)
    requires n <= U128_MAX && LoopState(n, guess, prev, iterations, run)
    requires guess != prev && iterations < MAX_ITERATIONS
    ensures guess + n / guess > U128_MAX <==> n == U128_MAX
    ensures n < U128_MAX ==> (guess + n / guess) / 2 == Step(n, guess) && LoopState(n, Step(n, guess), guess, iterations + 1, run)
  {
    StepInRange(n, guess);
    if iterations == 0 {
      DivAtLeast(n, guess, 1);
    }
    BabylonianFromStep(n, guess, prev, iterations);
  }

  /** A guess is a fixed point of the step exactly when it is the floor square root and n is
      not one below the next perfect square; in that case (n = g*g + 2*g) the loop alternates
      between g and g + 1 instead. */
  lemma FixedPointCharacterization(n: nat, g: nat)
    requires g >= 1
    ensures Step(n, g) == g <==> g * g <= n < g * g + 2 * g
  {
    DivAtLeast(n, g, g);
    DivAtLeast(n, g, g + 2);
    assert (g + 2) * g == g * g + 2 * g;
  }

  /** A fixed point of the step is the floor square root. */
  lemma FixedPointIsFloorSqrt(n: nat, g: nat)
    requires g >= 1 && Step(n, g) == g
    ensures IsFloorSqrt(n, g)
  {
    FixedPointCharacterization(n, g);
    assert (g + 1) * (g + 1) == g * g + 2 * g + 1;
  }

  /** When the loop stops because the guess no longer changes, the guess is the floor square root. */
  lemma {:induction false} ConvergedRootIsFloorSqrt(n: nat, guess: nat, prev: nat, iterations: nat)
    requires 1 <= guess <= n && iterations <= MAX_ITERATIONS
    requires prev >= 1 ==> guess == Step(n, prev)
    decreases MAX_ITERATIONS - iterations
    ensures BabylonianFrom(n, guess, prev, iterations).converged ==>
              IsFloorSqrt(n, BabylonianFrom(n, guess, prev, iterations).root)
  {
    if guess == prev {
      FixedPointIsFloorSqrt(n, guess);
    } else if iterations < MAX_ITERATIONS {
      StepInRange(n, guess);
      ConvergedRootIsFloorSqrt(n, Step(n, guess), guess, iterations + 1);
    }
  }

  /** The contract's loop, when it converges, computes floor(sqrt(n)). */
  lemma BabylonianConvergedIsFloorSqrt(n: nat)
    requires n >= 1
    ensures Babylonian(n).converged ==> IsFloorSqrt(n, Babylonian(n).root)
  {
    ConvergedRootIsFloorSqrt(n, n, 0, 0);
  }

  /** Depositing 1000 and 1000 into an empty pool: the loop settles on 1000 after 13 steps. */
  lemma BabylonianOfAMillion()
    ensures Babylonian(1000000) == Run(1000, true)
  {
    var n := 1000000;
    assert BabylonianFrom(n, 1033, 1295, 11) == BabylonianFrom(n, 1000, 1033, 12) == Run(1000, true) by {
      assert Step(n, 1033) == 1000;
      assert Step(n, 1000) == 1000;
      assert BabylonianFrom(n, 1000, 1033, 12) == BabylonianFrom(n, 1000, 1000, 13);
    }
    assert BabylonianFrom(n, 3990, 7854, 8) == BabylonianFrom(n, 1033, 1295, 11) by {
      assert Step(n, 3990) == 2120;
      assert Step(n, 2120) == 1295;
      assert Step(n, 1295) == 1033;
    }
    assert BabylonianFrom(n, 62504, 125002, 4) == BabylonianFrom(n, 3990, 7854, 8) by {
      assert Step(n, 62504) == 31259;
      assert Step(n, 31259) == 15645;
      assert Step(n, 15645) == 7854;
      assert Step(n, 7854) == 3990;
    }
    assert Babylonian(n) == BabylonianFrom(n, 62504, 125002, 4) by {
      assert Step(n, n) == 500000;
      assert Step(n, 500000) == 250001;
      assert Step(n, 250001) == 125002;
      assert Step(n, 125002) == 62504;
    }
  }

  /** The product behind the bound of `StepInRange`: (n - g + 2) * g exceeds n by
      (g - 1) * (n - g) + g. */
  lemma StepBoundProduct(n: int, g: int)
    ensures (n - g + 2) * g == (g - 1) * (n - g) + n + g
  {
  }

  /** For a guess between 1 and n, guess + n / guess is at most n + 1, so the step stays
      between 1 and (n + 1) / 2. */
  lemma StepInRange(n: nat, g: nat)
    requires 1 <= g <= n
    ensures g + n / g <= n + 1
    ensures 1 <= Step(n, g) <= (n + 1) / 2
  {
    var q := n / g;
    assert q <= n - g + 1 by {
      StepBoundProduct(n, g);
      MulLe(0, g - 1, n - g);
      DivAtLeast(n, g, n - g + 2);
    }
    assert g + q >= 2 by {
      DivAtLeast(n, g, 1);
    }
  }
}
