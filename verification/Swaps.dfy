/** What SandboxDex.sol promises: each external function of the pool as a
    transformer of the pool's record and its two tokens' ledgers, which may
    revert, and the effect of a call that succeeds. */
module Swaps {
  import opened Powers
  import opened Evm
  import opened Token
  import opened Quote
  import opened Reserves

  datatype Pool = Pool(tokenA: Address, tokenB: Address, reserveA: nat, reserveB: nat) {
    function Reserves(): Pair {
      Pair(reserveA, reserveB)
    }
  }

  /** Everything a call to a pool can touch: the pool and its two tokens. */
  datatype Books = Books(pool: Pool, a: Ledger, b: Ledger) {
    function In(side: Side): Ledger {
      if side == SellA then a else b
    }

    function Out(side: Side): Ledger {
      if side == SellA then b else a
    }

    function Reserves(): Pair {
      pool.Reserves()
    }

    /** Both ledgers conserve their supply and hold what the pool has recorded. */
    ghost predicate Backed(self: Address) {
      && a.Conserved() && b.Conserved()
      && pool.reserveA <= a.BalanceOf(self)
      && pool.reserveB <= b.BalanceOf(self)
    }
  }

  datatype Fill = Fill(amountOut: nat, books: Books)

  /** The checked formula: it reverts where a 256-bit operation would overflow. */
  function GetAmountOut(amountIn: nat, reserveIn: nat, reserveOut: nat): Result<nat> {
    if amountIn == 0 then Revert(ZeroAmountIn)
    else
      :- Need(reserveIn > 0, EmptyReserveIn);
      :- Need(reserveOut > 0, EmptyReserveOut);
      var amountInWithFee :- Checked(amountIn * FEE_NUMERATOR);
      var numerator :- Checked(amountInWithFee * reserveOut);
      var scaled :- Checked(reserveIn * FEE_DENOMINATOR);
      var denominator :- Checked(scaled + amountInWithFee);
      Success(Floor(numerator, denominator))
  }

  function SwapExactIn(
    self: Address, sender: Address, amountIn: nat, minAmountOut: nat,
    reserveIn: nat, reserveOut: nat, tokenIn: Ledger, tokenOut: Ledger)
    : Result<(nat, Ledger, Ledger)>
  {
    var amountOut :- GetAmountOut(amountIn, reserveIn, reserveOut);
    :- Need(amountOut > 0, ZeroAmountOut);
    :- Need(amountOut >= minAmountOut, Slippage);
    var paid :- tokenIn.TransferFrom(self, sender, self, amountIn);
    var drawn :- tokenOut.Transfer(self, sender, amountOut);
    Success((amountOut, paid, drawn))
  }

  function SwapExactAForB(self: Address, sender: Address, amountIn: nat, minAmountOut: nat, k: Books): Result<Fill> {
    var (amountOut, a, b) :-
      SwapExactIn(self, sender, amountIn, minAmountOut, k.pool.reserveA, k.pool.reserveB, k.a, k.b);
    var reserveA :- Checked(k.pool.reserveA + amountIn);
    var reserveB :- CheckedSub(k.pool.reserveB, amountOut);
    Success(Fill(amountOut, Books(k.pool.(reserveA := reserveA, reserveB := reserveB), a, b)))
  }

  function SwapExactBForA(self: Address, sender: Address, amountIn: nat, minAmountOut: nat, k: Books): Result<Fill> {
    var (amountOut, b, a) :-
      SwapExactIn(self, sender, amountIn, minAmountOut, k.pool.reserveB, k.pool.reserveA, k.b, k.a);
    var reserveB :- Checked(k.pool.reserveB + amountIn);
    var reserveA :- CheckedSub(k.pool.reserveA, amountOut);
    Success(Fill(amountOut, Books(k.pool.(reserveA := reserveA, reserveB := reserveB), a, b)))
  }

  function SwapOn(
    side: Side, self: Address, sender: Address, amountIn: nat, minAmountOut: nat, k: Books): Result<Fill>
  {
    if side == SellA then SwapExactAForB(self, sender, amountIn, minAmountOut, k)
    else SwapExactBForA(self, sender, amountIn, minAmountOut, k)
  }

  function SeedLiquidity(self: Address, sender: Address, amountA: nat, amountB: nat, k: Books): Result<Books> {
    if amountA == 0 then Revert(ZeroAmountA)
    else
      :- Need(amountB > 0, ZeroAmountB);
      var a :- k.a.TransferFrom(self, sender, self, amountA);
      var b :- k.b.TransferFrom(self, sender, self, amountB);
      var reserveA :- Checked(k.pool.reserveA + amountA);
      var reserveB :- Checked(k.pool.reserveB + amountB);
      Success(Books(k.pool.(reserveA := reserveA, reserveB := reserveB), a, b))
  }

  // ---- What a swap and a seeding do ----

  /** The checked formula returns exactly when its inputs are positive and both
      sides of its division fit a word, and then it returns the quote. */
  lemma CheckedQuote(amountIn: nat, reserveIn: nat, reserveOut: nat)
    ensures var q := GetAmountOut(amountIn, reserveIn, reserveOut);
            && (q.Success? <==>
                  && amountIn > 0 && reserveIn > 0 && reserveOut > 0
                  && amountIn * 997 * reserveOut <= MAX_UINT256
                  && reserveIn * 1000 + amountIn * 997 <= MAX_UINT256)
            && (q.Success? ==>
                  amountIn * 997 <= MAX_UINT256 && q.value == AmountOut(amountIn, reserveIn, reserveOut) < reserveOut)
  {
    if amountIn > 0 && reserveIn > 0 && reserveOut > 0 {
      QuoteIsLargest(amountIn, reserveIn, reserveOut, 0);
      MulMono(1, reserveOut, amountIn * 997);
    }
  }

  /** A quote is one word. */
  lemma QuoteFits(amountIn: nat, reserveIn: nat, reserveOut: nat)
    ensures var q := GetAmountOut(amountIn, reserveIn, reserveOut); q.Success? ==> q.value <= MAX_UINT256
  {
    if GetAmountOut(amountIn, reserveIn, reserveOut).Success? {
      var n, d := amountIn * 997 * reserveOut, reserveIn * 1000 + amountIn * 997;
      FloorGalois(n, d, Floor(n, d));
      MulMono(1, d, Floor(n, d));
    }
  }

  /** `amount` moved from one account to another, nobody else's balance changed. */
  ghost predicate Moved(l: Ledger, l': Ledger, from: Address, to: Address, amount: nat) {
    && l'.Conserved()
    && l'.totalSupply == l.totalSupply && l'.minter == l.minter
    && forall a ::
         l'.BalanceOf(a) == l.BalanceOf(a) - (if a == from then amount else 0) + (if a == to then amount else 0)
  }

  /** The owner's finite allowance for the spender fell by `amount`; no other changed. */
  ghost predicate UsedAllowance(l: Ledger, l': Ledger, owner: Address, spender: Address, amount: nat) {
    forall o, s :: l'.Allowance(o, s) ==
      if o == owner && s == spender && l.Allowance(o, s) != MAX_UINT256 then l.Allowance(o, s) - amount
      else l.Allowance(o, s)
  }

  /** A trade as a pool, its trader and both tokens see it: the reserves make
      the reserve-level trade, and exactly that much changes hands. */
  ghost predicate Traded(k: Books, self: Address, sender: Address, t: Trade, k': Books) {
    && k.Reserves().Accepts(t)
    && k'.Reserves() == k.Reserves().Apply(t)
    && k'.pool.tokenA == k.pool.tokenA && k'.pool.tokenB == k.pool.tokenB
    && match t
       case Swap(side, x) =>
         && Moved(k.In(side), k'.In(side), sender, self, x)
         && Moved(k.Out(side), k'.Out(side), self, sender, k.Reserves().QuoteFor(side, x))
         && UsedAllowance(k.In(side), k'.In(side), sender, self, x)
         && k'.Out(side).allowances == k.Out(side).allowances
       case Seed(x, y) =>
         && Moved(k.a, k'.a, sender, self, x) && Moved(k.b, k'.b, sender, self, y)
         && UsedAllowance(k.a, k'.a, sender, self, x) && UsedAllowance(k.b, k'.b, sender, self, y)
  }

  /** A successful swap is the trade at the quoted price, within the trader's
      minimum, balance and allowance. */
  lemma SwapEffect(side: Side, self: Address, sender: Address, x: nat, min: nat, k: Books)
    requires k.Backed(self)
    requires SwapOn(side, self, sender, x, min, k).Success?
    ensures var Fill(y, k') := SwapOn(side, self, sender, x, min, k).value;
            && Traded(k, self, sender, Swap(side, x), k')
            && y == k.Reserves().QuoteFor(side, x) && y >= min
            && x * 997 <= MAX_UINT256
            && x <= k.In(side).BalanceOf(sender) && x <= k.In(side).Allowance(sender, self)
  {
    var r := k.Reserves();
    SwapMoves(self, sender, x, min, r.In(side), r.Out(side), k.In(side), k.Out(side));
  }

  lemma SwapMoves(
    self: Address, sender: Address, x: nat, min: nat,
    reserveIn: nat, reserveOut: nat, tokenIn: Ledger, tokenOut: Ledger)
    requires tokenIn.Conserved() && tokenOut.Conserved()
    requires SwapExactIn(self, sender, x, min, reserveIn, reserveOut, tokenIn, tokenOut).Success?
    ensures var (y, paid, drawn) := SwapExactIn(self, sender, x, min, reserveIn, reserveOut, tokenIn, tokenOut).value;
            && x > 0 && reserveIn > 0 && reserveOut > 0 && x * 997 <= MAX_UINT256
            && AmountOut(x, reserveIn, reserveOut) == y && y >= min && 0 < y < reserveOut
            && x <= tokenIn.BalanceOf(sender) && x <= tokenIn.Allowance(sender, self)
            && Moved(tokenIn, paid, sender, self, x)
            && Moved(tokenOut, drawn, self, sender, y)
            && UsedAllowance(tokenIn, paid, sender, self, x)
            && drawn.allowances == tokenOut.allowances
  {
    CheckedQuote(x, reserveIn, reserveOut);
    TransferFromEffect(tokenIn, self, sender, self, x);
    TransferEffect(tokenOut, self, sender, GetAmountOut(x, reserveIn, reserveOut).value);
  }

  lemma SeedEffect(self: Address, sender: Address, x: nat, y: nat, k: Books)
    requires k.Backed(self)
    requires SeedLiquidity(self, sender, x, y, k).Success?
    ensures Traded(k, self, sender, Seed(x, y), SeedLiquidity(self, sender, x, y, k).value)
  {
    TransferFromEffect(k.a, self, sender, self, x);
    TransferFromEffect(k.b, self, sender, self, y);
  }

  /** A seeding goes through exactly when both amounts are positive and covered by
      the provider's balances and allowances. */
  lemma SeedSucceedsExactlyWhen(self: Address, sender: Address, x: nat, y: nat, k: Books)
    requires k.Backed(self) && self != ZERO && sender != self
    ensures SeedLiquidity(self, sender, x, y, k).Success? <==>
            && x > 0 && y > 0
            && x <= k.a.BalanceOf(sender) && x <= k.a.Allowance(sender, self)
            && y <= k.b.BalanceOf(sender) && y <= k.b.Allowance(sender, self)
  {
    TransferFromEffect(k.a, self, sender, self, x);
    TransferFromEffect(k.b, self, sender, self, y);
    TwoHoldings(k.a.balances, sender, self);
    TwoHoldings(k.b.balances, sender, self);
  }

  /** Nothing the pricing formula computes leaves 256 bits. */
  predicate Fits(x: nat, reserveIn: nat, reserveOut: nat) {
    x * 997 * reserveOut <= MAX_UINT256 && reserveIn * 1000 + x * 997 <= MAX_UINT256
  }

  /** The pool takes this input, and can compute what to pay for it. */
  predicate Fills(r: Pair, side: Side, x: nat) {
    r.Accepts(Swap(side, x)) && Fits(x, r.In(side), r.Out(side))
  }

  /** A swap goes through exactly when the pool fills it, the quote meets the
      minimum and the trader's balance and allowance cover the input. */
  lemma SwapSucceedsExactlyWhen(side: Side, self: Address, sender: Address, x: nat, min: nat, k: Books)
    requires k.Backed(self) && self != ZERO && sender != ZERO && sender != self
    ensures SwapOn(side, self, sender, x, min, k).Success? <==>
            && Fills(k.Reserves(), side, x)
            && k.Reserves().QuoteFor(side, x) >= min
            && x <= k.In(side).BalanceOf(sender)
            && x <= k.In(side).Allowance(sender, self)
  {
    var r := k.Reserves();
    CheckedQuote(x, r.In(side), r.Out(side));
    if SwapOn(side, self, sender, x, min, k).Success? {
      SwapEffect(side, self, sender, x, min, k);
    }
    if r.Accepts(Swap(side, x)) && x <= k.In(side).BalanceOf(sender) {
      TwoHoldings(k.In(side).balances, sender, self);
      TransferFromEffect(k.In(side), self, sender, self, x);
      TransferEffect(k.Out(side), self, sender, r.QuoteFor(side, x));
    }
  }

  /** Which requirement a swap fails, in the order they are made. */
  lemma SwapFailsWith(side: Side, self: Address, sender: Address, x: nat, min: nat, k: Books)
    requires k.Backed(self) && self != ZERO && sender != ZERO && sender != self
    ensures var r, p := SwapOn(side, self, sender, x, min, k), k.Reserves();
            && (r == Revert(ZeroAmountIn) <==> x == 0)
            && (r == Revert(EmptyReserveIn) <==> x > 0 && p.In(side) == 0)
            && (r == Revert(EmptyReserveOut) <==> x > 0 && p.In(side) > 0 && p.Out(side) == 0)
            && (x > 0 && p.Live() ==>
                  var fits, quote := Fits(x, p.In(side), p.Out(side)), p.QuoteFor(side, x);
                  && (r == Revert(Overflow) <==> !fits)
                  && (r == Revert(ZeroAmountOut) <==> fits && quote == 0)
                  && (r == Revert(Slippage) <==> fits && 0 < quote < min)
                  && (fits && quote > 0 && quote >= min ==>
                        && (r == Revert(AllowanceExceeded) <==> x > k.In(side).Allowance(sender, self))
                        && (r == Revert(BalanceExceeded) <==>
                              x <= k.In(side).Allowance(sender, self) && x > k.In(side).BalanceOf(sender))))
  {
    var p := k.Reserves();
    CheckedQuote(x, p.In(side), p.Out(side));
    SwapSucceedsExactlyWhen(side, self, sender, x, min, k);
    TransferFromFailsWith(k.In(side), self, sender, self, x);
    if x > 0 && p.Live() {
      TransferFailsWith(k.Out(side), self, sender, p.QuoteFor(side, x));
    }
  }

  lemma SeedFailsWith(self: Address, sender: Address, x: nat, y: nat, k: Books)
    requires k.Backed(self) && self != ZERO && sender != self
    ensures var r := SeedLiquidity(self, sender, x, y, k);
            && (r == Revert(ZeroAmountA) <==> x == 0)
            && (r == Revert(ZeroAmountB) <==> x > 0 && y == 0)
            && (x > 0 && y > 0 ==>
                  var allowedA, coveredA := x <= k.a.Allowance(sender, self), x <= k.a.BalanceOf(sender);
                  var allowedB, coveredB := y <= k.b.Allowance(sender, self), y <= k.b.BalanceOf(sender);
                  && (r == Revert(AllowanceExceeded) <==> !allowedA || (coveredA && !allowedB))
                  && (r == Revert(BalanceExceeded) <==> allowedA && (!coveredA || (allowedB && !coveredB))))
  {
    SeedSucceedsExactlyWhen(self, sender, x, y, k);
    TransferFromFailsWith(k.a, self, sender, self, x);
    TransferFromFailsWith(k.b, self, sender, self, y);
    TransferFromEffect(k.a, self, sender, self, x);
    TransferFromEffect(k.b, self, sender, self, y);
  }

  // ---- Ordinary supplies ----

  /** Supplies small enough that no intermediate product leaves 256 bits. */
  const SUPPLY_CAP: nat := Pow2(123)

  lemma SupplyCap()
    ensures SUPPLY_CAP * 997 * SUPPLY_CAP <= MAX_UINT256
    ensures SUPPLY_CAP * 1000 <= MAX_UINT256
  {
    Pow2Of128();
    Pow2Sum(123, 5);
    assert Pow2(5) == 32;
    LargestWord();
  }

  lemma NoOverflow(x: nat, reserveIn: nat, reserveOut: nat)
    requires x + reserveIn <= SUPPLY_CAP && reserveOut <= SUPPLY_CAP
    ensures Fits(x, reserveIn, reserveOut)
  {
    SupplyCap();
    var fee := x * 997;
    assert fee * reserveOut <= SUPPLY_CAP * 997 * SUPPLY_CAP by {
      MulMono(fee, SUPPLY_CAP * 997, reserveOut);
      MulMono(reserveOut, SUPPLY_CAP, SUPPLY_CAP * 997);
    }
  }

  /** With supplies up to 2^123 nothing a funded swap computes overflows, so the
      trader's own conditions decide alone. */
  lemma OrdinarySwap(side: Side, self: Address, sender: Address, x: nat, min: nat, k: Books)
    requires k.Backed(self) && self != ZERO && sender != ZERO && sender != self
    requires k.a.totalSupply <= SUPPLY_CAP && k.b.totalSupply <= SUPPLY_CAP
    ensures SwapOn(side, self, sender, x, min, k).Success? <==>
            && k.Reserves().Accepts(Swap(side, x))
            && k.Reserves().QuoteFor(side, x) >= min
            && x <= k.In(side).BalanceOf(sender)
            && x <= k.In(side).Allowance(sender, self)
  {
    SwapSucceedsExactlyWhen(side, self, sender, x, min, k);
    if x <= k.In(side).BalanceOf(sender) {
      FundedFits(side, self, sender, x, k);
    }
  }

  lemma FundedFits(side: Side, self: Address, sender: Address, x: nat, k: Books)
    requires k.Backed(self) && sender != self && x <= k.In(side).BalanceOf(sender)
    requires k.a.totalSupply <= SUPPLY_CAP && k.b.totalSupply <= SUPPLY_CAP
    ensures Fits(x, k.Reserves().In(side), k.Reserves().Out(side))
  {
    TwoHoldings(k.In(side).balances, sender, self);
    TwoHoldings(k.Out(side).balances, self, self);
    NoOverflow(x, k.Reserves().In(side), k.Reserves().Out(side));
  }
}
