/** The backrun scenario's route calculation (scenarios/backrun/run.py and
    sandbox_amount_out of scenarios/scenario_support.py) in Python's unbounded
    integers, and that the chain then does exactly what it predicts. */
module OffChain {
  import opened Powers
  import opened Evm
  import opened Quote
  import opened Reserves
  import opened Swaps
  import opened Arbitrage
  import opened World
  import opened Solvency
  import opened Messages

  datatype ScenarioError = AmountNotPositive | ReservesNotPositive | ProfitTooLow

  datatype Calculated<+T> = Value(value: T) | Raised(error: ScenarioError) {
    predicate IsFailure() {
      Raised?
    }

    function PropagateFailure<U>(): Calculated<U>
      requires Raised?
    {
      Raised(error)
    }

    function Extract(): T
      requires Value?
    {
      value
    }
  }

  const MIN_OUTPUT_BPS: int := 9_900

  function SandboxAmountOut(amountIn: int, reserveIn: int, reserveOut: int): Calculated<int> {
    if amountIn <= 0 then Raised(AmountNotPositive)
    else if reserveIn <= 0 || reserveOut <= 0 then Raised(ReservesNotPositive)
    else Value(Floor(amountIn * 997 * reserveOut, reserveIn * 1000 + amountIn * 997))
  }

  function MinOutput(amountOut: int): int {
    amountOut * MIN_OUTPUT_BPS / 10_000
  }

  datatype Prediction = Prediction(
    victimOutB: int, victimMinOutB: int,
    pool1AfterVictimA: int, pool1AfterVictimB: int,
    backrunOutA: int, backrunOutB: int,
    backrunMinOutA: int, backrunMinOutB: int,
    expectedProfitB: int)

  /** The route calculation of `main`, from the reserves read before it. */
  function PredictRoute(
    pool1A: int, pool1B: int, pool2A: int, pool2B: int, victimA: int, backrunB: int, minProfitB: int)
    : Calculated<Prediction>
  {
    var victimOutB :- SandboxAmountOut(victimA, pool1A, pool1B);
    var (afterA, afterB) := (pool1A + victimA, pool1B - victimOutB);
    var backrunOutA :- SandboxAmountOut(backrunB, afterB, afterA);
    var backrunOutB :- SandboxAmountOut(backrunOutA, pool2A, pool2B);
    var expectedProfitB := backrunOutB - backrunB;
    if expectedProfitB < minProfitB then Raised(ProfitTooLow)
    else Value(Prediction(victimOutB, MinOutput(victimOutB), afterA, afterB,
                          backrunOutA, backrunOutB, MinOutput(backrunOutA), MinOutput(backrunOutB), expectedProfitB))
  }

  /** The minimum is 99% of the output, rounded down. */
  ghost predicate MinimumOf(min: int, output: int) {
    0 <= min <= output && 100 * min <= 99 * output < 100 * (min + 1)
  }

  lemma MinOutputAllows(amountOut: nat)
    ensures MinimumOf(MinOutput(amountOut), amountOut)
  {
  }

  /** The off-chain formula has a value exactly on positive inputs, and says which
      input is at fault. */
  lemma QuotesExactlyPositive(x: int, reserveIn: int, reserveOut: int)
    ensures SandboxAmountOut(x, reserveIn, reserveOut).Value? <==> x > 0 && reserveIn > 0 && reserveOut > 0
    ensures SandboxAmountOut(x, reserveIn, reserveOut) == Raised(AmountNotPositive) <==> x <= 0
    ensures SandboxAmountOut(x, reserveIn, reserveOut) == Raised(ReservesNotPositive) <==>
            x > 0 && (reserveIn <= 0 || reserveOut <= 0)
  {
  }

  /** The calculation succeeds exactly when amounts and reserves are positive, the
      backrun buys something and its profit reaches the minimum. */
  lemma PredictsExactlyWhen(r1: Pair, r2: Pair, victimA: nat, backrunB: nat, minProfitB: int)
    ensures PredictRoute(r1.a, r1.b, r2.a, r2.b, victimA, backrunB, minProfitB).Value? <==>
            && victimA > 0 && backrunB > 0 && r1.Live() && r2.Live()
            && var victimOutB := r1.QuoteFor(SellA, victimA);
            && victimOutB < r1.b
            && var after := Pair(r1.a + victimA, r1.b - victimOutB);
            && after.QuoteFor(SellB, backrunB) > 0
            && r2.QuoteFor(SellA, after.QuoteFor(SellB, backrunB)) - backrunB >= minProfitB
  {
    if victimA > 0 && r1.Live() {
      QuoteIsLargest(victimA, r1.a, r1.b, 0);
    }
  }

  /** The off-chain quote is the pool's quote, on every positive input. */
  lemma SameQuote(r: Pair, side: Side, x: nat)
    requires x > 0 && r.Live()
    ensures SandboxAmountOut(x, r.In(side), r.Out(side)) == Value(r.QuoteFor(side, x))
  {
  }

  /** The two transactions of the bundle, with the minimums the scenario sends. */
  function VictimSwap(victim: Address, pool1: Address, victimA: uint256, minOutB: uint256): Message {
    Message(victim, SwapExact(pool1, SellA, victimA, minOutB))
  }

  function BotBackrun(
    bot: Address, pool1: Address, pool2: Address, backrunB: uint256, minA: uint256, minB: uint256, minProfitB: uint256)
    : Message
  {
    Message(bot, ExecuteBackrun(pool1, pool2, backrunB, minA, minB, minProfitB))
  }

  /** What the scenario prepares: two pools over one pair, a funded and approved
      victim and a funded executor operated by the bot. */
  ghost predicate Prepared(
    w: World, victim: Address, bot: Address, pool1: Address, pool2: Address, victimA: nat, backrunB: nat)
  {
    && w.Sound() && w.HasPool(pool1) && w.HasPool(pool2) && pool1 != pool2
    && w.pools[pool1].tokenA == w.pools[pool2].tokenA && w.pools[pool1].tokenB == w.pools[pool2].tokenB
    && victim !in w.pools && victim != ZERO && victim != w.executor && bot == w.operator && w.executor != ZERO
    && var a, b := w.BooksOf(pool1).a, w.BooksOf(pool1).b;
    && victimA <= a.BalanceOf(victim) && victimA <= a.Allowance(victim, pool1)
    && backrunB <= b.BalanceOf(w.executor)
  }

  /** The scenario's own setup leads there: A minted to the victim, who approves the
      first pool, and B minted to the executor. */
  lemma SetupPrepares(
    w: World, victim: Address, bot: Address, pool1: Address, pool2: Address, victimA: uint256, backrunB: uint256,
    deployer: Address)
    requires w.Sound() && pool1 in w.pools && pool2 in w.pools && w.HasPool(pool1) && w.HasPool(pool2)
    requires pool1 != pool2 && w.executor != ZERO && bot == w.operator
    requires w.pools[pool1].tokenA == w.pools[pool2].tokenA && w.pools[pool1].tokenB == w.pools[pool2].tokenB
    requires victim !in w.pools && victim != ZERO && victim != w.executor && deployer !in w.pools
    requires deployer == w.BooksOf(pool1).a.minter == w.BooksOf(pool1).b.minter
    requires w.BooksOf(pool1).a.totalSupply + victimA <= MAX_UINT256
    requires w.BooksOf(pool1).b.totalSupply + backrunB <= MAX_UINT256
    ensures var funded := w.Run(Funding(w, pool1, SellA, deployer, victim, victimA));
            var ready := funded.Exec(Message(deployer, Mint(w.pools[pool1].tokenB, w.executor, backrunB)));
            && Prepared(ready, victim, bot, pool1, pool2, victimA, backrunB)
            && ready.pools == w.pools
  {
    var funded := w.Run(Funding(w, pool1, SellA, deployer, victim, victimA));
    FundingPrepares(w, pool1, SellA, deployer, victim, victimA);
    BooksBacked(w, pool1);
    MintMessage(funded, deployer, w.pools[pool1].tokenB, w.executor, backrunB);
    StepKeepsSound(funded, Message(deployer, Mint(w.pools[pool1].tokenB, w.executor, backrunB)));
  }

  ghost predicate Predicts(
    w: World, pool1: Address, pool2: Address, victimA: nat, backrunB: nat, minProfitB: nat, p: Prediction)
    requires w.HasPool(pool1) && w.HasPool(pool2)
  {
    var r1, r2 := w.pools[pool1], w.pools[pool2];
    PredictRoute(r1.reserveA, r1.reserveB, r2.reserveA, r2.reserveB, victimA, backrunB, minProfitB) == Value(p)
  }

  /** A prediction in terms of the pools' own quotes. */
  lemma PredictionIsQuotes(
    w: World, pool1: Address, pool2: Address, victimA: nat, backrunB: nat, minProfitB: nat, p: Prediction)
    requires w.HasPool(pool1) && w.HasPool(pool2) && Predicts(w, pool1, pool2, victimA, backrunB, minProfitB, p)
    ensures var r1, r2 := w.pools[pool1].Reserves(), w.pools[pool2].Reserves();
            && victimA > 0 && backrunB > 0 && r1.Live() && r2.Live()
            && p.victimOutB == r1.QuoteFor(SellA, victimA) && 0 <= p.victimOutB < r1.b
            && var after := Pair(r1.a + victimA, r1.b - p.victimOutB);
            && after == Pair(p.pool1AfterVictimA, p.pool1AfterVictimB) && after.Live()
            && p.backrunOutA == after.QuoteFor(SellB, backrunB) && p.backrunOutA > 0
            && p.backrunOutB == r2.QuoteFor(SellA, p.backrunOutA)
            && p.backrunOutB == backrunB + p.expectedProfitB && p.expectedProfitB >= minProfitB
            && MinimumOf(p.victimMinOutB, p.victimOutB)
            && MinimumOf(p.backrunMinOutA, p.backrunOutA) && MinimumOf(p.backrunMinOutB, p.backrunOutB)
  {
    QuoteIsLargest(victimA, w.pools[pool1].reserveA, w.pools[pool1].reserveB, 0);
    MinOutputAllows(p.victimOutB);
    MinOutputAllows(p.backrunOutA);
    MinOutputAllows(p.backrunOutB);
  }

  /** What a swap of A that goes through leaves behind, in both tokens. */
  lemma SwapLands(w: World, pool: Address, trader: Address, x: uint256, min: uint256)
    requires w.Sound() && w.HasPool(pool) && trader !in w.pools
    requires w.Step(VictimSwap(trader, pool, x, min)).Success?
    ensures var w' := w.Exec(VictimSwap(trader, pool, x, min));
            && SameContracts(w, w') && w'.Sound() && w'.HasPool(pool)
            && w'.pools == w.pools[pool := w'.pools[pool]]
            && w.pools[pool].Reserves().Accepts(Swap(SellA, x))
            && var k, k' := w.BooksOf(pool), w'.BooksOf(pool);
            && k'.Reserves() == k.Reserves().Apply(Swap(SellA, x))
            && Moved(k.a, k'.a, trader, pool, x)
            && Moved(k.b, k'.b, pool, trader, k.Reserves().QuoteFor(SellA, x))
  {
    var m := VictimSwap(trader, pool, x, min);
    StepKeepsSound(w, m);
    BooksBacked(w, pool);
    var k := PoolStep(w, m);
    assert w.Exec(m).BooksOf(pool) == k;
  }

  /** A swap of `x` of A would pay something: the input is worth at least one
      unit of B after the fee. */
  predicate PaysOut(x: nat, r: Pair) {
    997 * x * (r.b - 1) >= 1000 * r.a
  }

  lemma PaysOutExactly(x: nat, r: Pair)
    requires x > 0 && r.Live()
    ensures r.QuoteFor(SellA, x) > 0 <==> PaysOut(x, r)
  {
    QuoteIsLargest(x, r.a, r.b, 1);
    Spread(x, r.a, r.b);
  }

  lemma Spread(x: nat, a: nat, b: nat)
    ensures (1000 * a + 997 * x) * (b - 1) - 1000 * a * b == 997 * x * (b - 1) - 1000 * a
  {
    assert (1000 * a + 997 * x) * (b - 1) == 1000 * a * (b - 1) + 997 * x * (b - 1);
  }

  /** The victim's swap goes through exactly when it is worth a unit of B and the
      pool can compute it, and then it pays the predicted output and leaves the
      predicted reserves. */
  lemma VictimAsPredicted(
    w: World, victim: Address, bot: Address, pool1: Address, pool2: Address,
    victimA: uint256, backrunB: uint256, minProfitB: uint256, minOutB: uint256, p: Prediction)
    requires Prepared(w, victim, bot, pool1, pool2, victimA, backrunB)
    requires Predicts(w, pool1, pool2, victimA, backrunB, minProfitB, p) && p.victimMinOutB == minOutB
    ensures var m, r := VictimSwap(victim, pool1, victimA, minOutB), w.pools[pool1].Reserves();
            && (w.Step(m).Success? <==> PaysOut(victimA, r) && Fits(victimA, r.a, r.b))
            && (w.Step(m).Success? ==>
                  var w' := w.Exec(m);
                  && SameContracts(w, w') && w'.Sound()
                  && w'.pools[pool1].Reserves() == Pair(p.pool1AfterVictimA, p.pool1AfterVictimB)
                  && w'.pools[pool2] == w.pools[pool2]
                  && w'.BooksOf(pool1).a.BalanceOf(victim) == w.BooksOf(pool1).a.BalanceOf(victim) - victimA
                  && w'.BooksOf(pool1).b.BalanceOf(victim) == w.BooksOf(pool1).b.BalanceOf(victim) + p.victimOutB
                  && w'.BooksOf(pool1).a.BalanceOf(w.executor) == w.BooksOf(pool1).a.BalanceOf(w.executor)
                  && w'.BooksOf(pool1).b.BalanceOf(w.executor) == w.BooksOf(pool1).b.BalanceOf(w.executor))
  {
    PredictionIsQuotes(w, pool1, pool2, victimA, backrunB, minProfitB, p);
    SoundSwap(w, pool1, SellA, victim, victimA, minOutB);
    PaysOutExactly(victimA, w.pools[pool1].Reserves());
    var m := VictimSwap(victim, pool1, victimA, minOutB);
    if w.Step(m).Success? {
      SwapLands(w, pool1, victim, victimA, minOutB);
    }
  }

  /** After it the backrun goes through with the scenario's minimums exactly when
      both pools can compute their quotes, and then the executor's realised profit
      is exactly the predicted one. */
  lemma BackrunAsPredicted(
    w: World, bot: Address, pool1: Address, pool2: Address,
    victimA: nat, backrunB: uint256, minProfitB: uint256, minA: uint256, minB: uint256, p: Prediction, before: World)
    requires w.Sound() && w.HasPool(pool1) && w.HasPool(pool2) && pool1 != pool2 && bot == w.operator
    requires w.executor != ZERO
    requires w.pools[pool1].tokenA == w.pools[pool2].tokenA && w.pools[pool1].tokenB == w.pools[pool2].tokenB
    requires before.HasPool(pool1) && before.HasPool(pool2)
    requires Predicts(before, pool1, pool2, victimA, backrunB, minProfitB, p)
    requires w.pools[pool1].Reserves() == Pair(p.pool1AfterVictimA, p.pool1AfterVictimB)
             && w.pools[pool2] == before.pools[pool2]
    requires backrunB <= w.BooksOf(pool1).b.BalanceOf(w.executor)
    requires minA == p.backrunMinOutA && minB == p.backrunMinOutB
    ensures var m := BotBackrun(bot, pool1, pool2, backrunB, minA, minB, minProfitB);
            && p.backrunOutA >= 0 && p.pool1AfterVictimA >= 0 && p.pool1AfterVictimB >= 0
            && (w.Step(m).Success? <==> BackrunFits(before, pool2, backrunB, p))
            && (w.Step(m).Success? ==>
                  && w.pools[pool1].tokenA in w.Exec(m).tokens && w.pools[pool1].tokenB in w.Exec(m).tokens
                  && w.Exec(m).tokens[w.pools[pool1].tokenB].BalanceOf(w.executor) ==
                     w.BooksOf(pool1).b.BalanceOf(w.executor) + p.expectedProfitB
                  && w.Exec(m).tokens[w.pools[pool1].tokenA].BalanceOf(w.executor) ==
                     w.BooksOf(pool1).a.BalanceOf(w.executor))
  {
    var m := BotBackrun(bot, pool1, pool2, backrunB, minA, minB, minProfitB);
    PredictionIsQuotes(before, pool1, pool2, victimA, backrunB, minProfitB, p);
    BooksBacked(w, pool1);
    BooksBacked(w, pool2);
    RouteAccepted(w, bot, pool1, pool2, backrunB, minA, minB, minProfitB, p.backrunOutA);
    if w.Step(m).Success? {
      var r := BackrunStep(w, m);
    }
  }

  /** Neither of the backrun's two quotes, taken on the predicted reserves,
      overflows. */
  ghost predicate BackrunFits(w: World, pool2: Address, backrunB: nat, p: Prediction)
    requires pool2 in w.pools
  {
    && p.backrunOutA >= 0 && p.pool1AfterVictimA >= 0 && p.pool1AfterVictimB >= 0
    && Fits(backrunB, p.pool1AfterVictimB, p.pool1AfterVictimA)
    && Fits(p.backrunOutA, w.pools[pool2].reserveA, w.pools[pool2].reserveB)
  }

  lemma RouteAccepted(
    w: World, bot: Address, pool1: Address, pool2: Address,
    backrunB: uint256, minA: uint256, minB: uint256, minProfitB: uint256, outA: nat)
    requires w.Sound() && w.HasPool(pool1) && w.HasPool(pool2) && pool1 != pool2 && bot == w.operator
    requires w.executor != ZERO
    requires w.pools[pool1].tokenA == w.pools[pool2].tokenA && w.pools[pool1].tokenB == w.pools[pool2].tokenB
    requires 0 < backrunB <= w.BooksOf(pool1).b.BalanceOf(w.executor)
    requires w.pools[pool1].Reserves().Live() && w.pools[pool2].Reserves().Live()
    requires outA == w.pools[pool1].Reserves().QuoteFor(SellB, backrunB) && outA > 0 && outA >= minA
    requires w.pools[pool2].Reserves().QuoteFor(SellA, outA) >= minB
    requires w.pools[pool2].Reserves().QuoteFor(SellA, outA) >= backrunB + minProfitB
    ensures var buy, sell := w.pools[pool1].Reserves(), w.pools[pool2].Reserves();
            w.Step(BotBackrun(bot, pool1, pool2, backrunB, minA, minB, minProfitB)).Success? <==>
            Fits(backrunB, buy.b, buy.a) && Fits(outA, sell.a, sell.b)
  {
    BooksBacked(w, pool1);
    BooksBacked(w, pool2);
    ExecuteSucceedsExactlyWhen(w.executor, pool1, pool2, backrunB, minA, minB, minProfitB, w.VenuesAt(pool1, pool2));
  }

  /** When the calculation succeeds, its bundle goes through as a whole exactly
      when the victim's input is worth a unit of B and none of the three quotes
      overflows. Then the victim gets the predicted output and the executor
      realises exactly the predicted profit. */
  lemma BundleRealisesPrediction(
    w: World, victim: Address, bot: Address, pool1: Address, pool2: Address,
    victimA: uint256, backrunB: uint256, minProfitB: uint256,
    victimMin: uint256, minA: uint256, minB: uint256, p: Prediction)
    requires Prepared(w, victim, bot, pool1, pool2, victimA, backrunB)
    requires Predicts(w, pool1, pool2, victimA, backrunB, minProfitB, p)
    requires victimMin == p.victimMinOutB && minA == p.backrunMinOutA && minB == p.backrunMinOutB
    ensures var swap := VictimSwap(victim, pool1, victimA, victimMin);
            var backrun := BotBackrun(bot, pool1, pool2, backrunB, minA, minB, minProfitB);
            var mid, end := w.Exec(swap), w.Exec(swap).Exec(backrun);
            var tokenA, tokenB := w.pools[pool1].tokenA, w.pools[pool1].tokenB;
            var r := w.pools[pool1].Reserves();
            && (w.Step(swap).Success? && mid.Step(backrun).Success? <==>
                  PaysOut(victimA, r) && Fits(victimA, r.a, r.b) && BackrunFits(w, pool2, backrunB, p))
            && (w.Step(swap).Success? && mid.Step(backrun).Success? ==>
                  && tokenB in mid.tokens && tokenA in end.tokens && tokenB in end.tokens
                  && mid.tokens[tokenB].BalanceOf(victim) == w.tokens[tokenB].BalanceOf(victim) + p.victimOutB
                  && end.tokens[tokenA].BalanceOf(w.executor) == w.tokens[tokenA].BalanceOf(w.executor)
                  && end.tokens[tokenB].BalanceOf(w.executor) ==
                     w.tokens[tokenB].BalanceOf(w.executor) + p.expectedProfitB
                  && p.expectedProfitB >= minProfitB)
  {
    var swap := VictimSwap(victim, pool1, victimA, victimMin);
    VictimAsPredicted(w, victim, bot, pool1, pool2, victimA, backrunB, minProfitB, victimMin, p);
    PredictionIsQuotes(w, pool1, pool2, victimA, backrunB, minProfitB, p);
    if w.Step(swap).Success? {
      BackrunAsPredicted(w.Exec(swap), bot, pool1, pool2, victimA, backrunB, minProfitB, minA, minB, p, w);
    }
  }

  // ---- Where calculation and pool part ----

  /** The calculation accepts a victim swap that would pay nothing, which the pool
      refuses: PaysOut fails. */
  lemma ZeroOutputIsPredicted(pool: Address, victim: Address, min: nat, k: Books)
    requires k.Reserves() == Pair(1000, 1)
    ensures var p := PredictRoute(1000, 1, 1000, 1000, 1, 1, 300);
            p.Value? && p.value.victimOutB == 0 && p.value.expectedProfitB == 331
    ensures !PaysOut(1, k.Reserves())
    ensures SwapOn(SellA, pool, victim, 1, min, k) == Revert(ZeroAmountOut)
  {
    assert SandboxAmountOut(1, 1000, 1) == Value(0);
    assert SandboxAmountOut(1, 1, 1001) == Value(499);
    assert SandboxAmountOut(499, 1000, 1000) == Value(332);
    LargestWord();
    CheckedQuote(1, 1000, 1);
  }

  const HUGE: nat := Pow2(250)

  lemma HugePowers()
    ensures HUGE == 0x400_0000_0000_0000_0000_0000_0000_0000_0000_0000_0000_0000_0000_0000_0000_0000
    ensures 16 * HUGE < MAX_UINT256 < 997 * HUGE
  {
    Pow2Of128();
    Pow2Sum(122, 6);
    assert Pow2(6) == 64;
    Pow2Sum(128, 122);
    LargestWord();
  }

  lemma HugePrediction()
    ensures PredictRoute(1000, HUGE, 1, 16 * HUGE, 1, HUGE, 0).Value?
  {
    HugePowers();
    assert SandboxAmountOut(1, 1000, HUGE) ==
           Value(0x1_0518_e5a3_ff6e_2197_d779_c54b_fb06_76a4_4331_4134_16c0_038d_41e7_7a89_2f69);
    var victimOutB := 0x1_0518_e5a3_ff6e_2197_d779_c54b_fb06_76a4_4331_4134_16c0_038d_41e7_7a89_2f69;
    assert SandboxAmountOut(HUGE, HUGE - victimOutB, 1001) == Value(499);
    assert SandboxAmountOut(499, 1, 16 * HUGE) ==
           Value(0x3fdf_2233_7a60_1f78_3663_c915_1160_66da_fbd3_d789_0933_fec2_e7ab_072c_b4bd_0ecc);
  }

  /** The calculation accepts a victim swap whose quote the pool cannot compute in
      256 bits: Fits fails. */
  lemma OverflowIsPredicted(pool: Address, victim: Address, min: nat, k: Books)
    requires k.Reserves() == Pair(1000, HUGE)
    ensures PredictRoute(1000, HUGE, 1, 16 * HUGE, 1, HUGE, 0).Value?
    ensures PaysOut(1, k.Reserves()) && !Fits(1, 1000, HUGE)
    ensures SwapOn(SellA, pool, victim, 1, min, k) == Revert(Overflow)
  {
    HugePrediction();
    HugePowers();
  }
}
