/** SandboxBackrun.sol: the executor contract, which trades through two pools in
    place and undoes everything when any step fails. */
module Backrun {
  import opened Evm
  import opened Token
  import opened Reserves
  import opened Swaps
  import opened Arbitrage
  import opened Dex

  /** A missing pool is the zero address. */
  function AddressOf(pool: SandboxDex?): Address {
    if pool == null then ZERO else pool.self
  }

  ghost function Reach(pool: SandboxDex?): set<object> {
    if pool == null then {} else {pool, pool.tokenA, pool.tokenB}
  }

  /** An address names one contract: true of every deployment. */
  ghost predicate OneContractPerAddress(buyPool: SandboxDex?, sellPool: SandboxDex?) {
    && (buyPool != null ==> buyPool.self != ZERO && buyPool.tokenA != buyPool.tokenB)
    && (sellPool != null ==> sellPool.self != ZERO && sellPool.tokenA != sellPool.tokenB)
    && (buyPool != null && sellPool != null ==>
          && (buyPool.self == sellPool.self ==> buyPool == sellPool)
          && (buyPool.tokenA.self == sellPool.tokenA.self ==> buyPool.tokenA == sellPool.tokenA)
          && (buyPool.tokenB.self == sellPool.tokenB.self ==> buyPool.tokenB == sellPool.tokenB))
  }

  ghost function VenuesOf(buyPool: SandboxDex, sellPool: SandboxDex): Venues
    reads buyPool, sellPool, buyPool.tokenA, buyPool.tokenB
  {
    Venues(buyPool.Storage(), sellPool.Storage(), buyPool.tokenA.Storage(), buyPool.tokenB.Storage())
  }

  class SandboxBackrun {
    const self: Address
    const operator: Address

    constructor (self: Address, operator: Address)
      requires operator != ZERO
      ensures this.self == self && this.operator == operator
    {
      this.self, this.operator := self, operator;
    }

    method ExecuteBackrun(
      sender: Address, buyPool: SandboxDex?, sellPool: SandboxDex?,
      amountInB: uint256, minAmountOutA: uint256, minAmountOutB: uint256, minProfitB: uint256)
      returns (r: Result<(nat, nat)>)
      requires OneContractPerAddress(buyPool, sellPool)
      modifies Reach(buyPool), Reach(sellPool)
      ensures var guard := Guard(sender, operator, AddressOf(buyPool), AddressOf(sellPool), amountInB);
              && (guard.Fail? ==> r.Status() == guard && unchanged(Reach(buyPool)) && unchanged(Reach(sellPool)))
              && (guard.Pass? ==>
                    var same := SameTokens(old(buyPool.Storage()), old(sellPool.Storage()));
                    var call :=
                      Execute(self, buyPool.self, sellPool.self, amountInB, minAmountOutA, minAmountOutB, minProfitB,
                              old(VenuesOf(buyPool, sellPool)));
                    && (same.Fail? ==> r.Status() == same && unchanged(Reach(buyPool)) && unchanged(Reach(sellPool)))
                    && (same.Pass? ==>
                          && r.Status() == call.Status()
                          && VenuesOf(buyPool, sellPool) ==
                             (if call.Success? then call.value.venues else old(VenuesOf(buyPool, sellPool)))
                          && (call.Success? ==> r.value == (call.value.amountOutA, call.value.amountOutB))))
    {
      if sender != operator { return Revert(NotOperator); }
      if buyPool == null { return Revert(ZeroBuyPool); }
      if sellPool == null { return Revert(ZeroSellPool); }
      if buyPool == sellPool { return Revert(SamePool); }
      if amountInB == 0 { return Revert(ZeroAmountIn); }
      var tokenA, tokenB := buyPool.tokenA, buyPool.tokenB;
      if tokenA != sellPool.tokenA { return Revert(TokenAMismatch); }
      if tokenB != sellPool.tokenB { return Revert(TokenBMismatch); }
      r := Trade(buyPool, sellPool, amountInB, minAmountOutA, minAmountOutB, minProfitB);
    }

    /** The rest of executeBackrun, once both pools are known to share their tokens. */
    method Trade(
      buyPool: SandboxDex, sellPool: SandboxDex,
      amountInB: uint256, minAmountOutA: uint256, minAmountOutB: uint256, minProfitB: uint256)
      returns (r: Result<(nat, nat)>)
      requires buyPool != sellPool && buyPool.tokenA != buyPool.tokenB
      requires buyPool.tokenA == sellPool.tokenA && buyPool.tokenB == sellPool.tokenB
      modifies buyPool, sellPool, buyPool.tokenA, buyPool.tokenB
      ensures var call :=
              Execute(self, buyPool.self, sellPool.self, amountInB, minAmountOutA, minAmountOutB, minProfitB,
                      old(VenuesOf(buyPool, sellPool)));
              && r.Status() == call.Status()
              && VenuesOf(buyPool, sellPool) ==
                 (if call.Success? then call.value.venues else old(VenuesOf(buyPool, sellPool)))
              && (call.Success? ==> r.value == (call.value.amountOutA, call.value.amountOutB))
    {
      var tokenB := buyPool.tokenB;
      var buyBefore, sellBefore := buyPool.Records(), sellPool.Records();
      var initialBalanceB := tokenB.BalanceOf(self);
      if initialBalanceB < amountInB { return Revert(InsufficientTokenB); }

      QuoteFits(amountInB, buyPool.reserveB, buyPool.reserveA);
      var bought := Buy(buyPool, amountInB, minAmountOutA);
      if bought.Revert? { return Revert(bought.error); }

      var sold := Sell(sellPool, bought.value, minAmountOutB);
      if sold.Revert? {
        buyPool.RollBack(buyBefore);
        return Revert(sold.error);
      }

      var finalBalanceB := tokenB.BalanceOf(self);
      if finalBalanceB < initialBalanceB {
        buyPool.RollBack(buyBefore);
        sellPool.RollBack(sellBefore);
        return Revert(Overflow);
      }
      if finalBalanceB - initialBalanceB < minProfitB {
        buyPool.RollBack(buyBefore);
        sellPool.RollBack(sellBefore);
        return Revert(ProfitBelowMinimum);
      }
      r := Success((bought.value, sold.value));
    }

    /** Approve the stake and swap it for A. */
    method Buy(pool: SandboxDex, amountInB: uint256, minAmountOutA: uint256) returns (r: Result<nat>)
      requires pool.tokenA != pool.tokenB
      modifies pool, pool.tokenA, pool.tokenB
      ensures var call := Leg(SellB, self, pool.self, amountInB, minAmountOutA, old(pool.Records()));
              && r.Status() == call.Status()
              && (call.Success? ==> r.value == call.value.amountOut && pool.Records() == call.value.books)
              && (call.Revert? ==> pool.Records() == old(pool.Records()))
    {
      var before := pool.Records();
      pool.tokenB.Approve(self, pool.self, amountInB);
      r := pool.SwapExactBForA(self, amountInB, minAmountOutA);
      if r.Revert? {
        pool.RollBack(before);
      }
    }

    /** Approve the A bought and swap it for B. */
    method Sell(pool: SandboxDex, amountInA: uint256, minAmountOutB: uint256) returns (r: Result<nat>)
      requires pool.tokenA != pool.tokenB
      modifies pool, pool.tokenA, pool.tokenB
      ensures var call := Leg(SellA, self, pool.self, amountInA, minAmountOutB, old(pool.Records()));
              && r.Status() == call.Status()
              && (call.Success? ==> r.value == call.value.amountOut && pool.Records() == call.value.books)
              && (call.Revert? ==> pool.Records() == old(pool.Records()))
    {
      var before := pool.Records();
      pool.tokenA.Approve(self, pool.self, amountInA);
      r := pool.SwapExactAForB(self, amountInA, minAmountOutB);
      if r.Revert? {
        pool.RollBack(before);
      }
    }

    method WithdrawToken(sender: Address, token: SandboxERC20?, to: Address, amount: uint256) returns (r: Outcome)
      modifies if token == null then {} else {token}
      ensures sender != operator ==> r == Fail(NotOperator)
      ensures sender == operator && token == null ==> r == Fail(ZeroToken)
      ensures sender == operator && token != null && to == ZERO ==> r == Fail(ZeroRecipient)
      ensures sender == operator && token != null && to != ZERO ==>
                r == old(token.Storage()).Transfer(self, to, amount).Status()
      ensures token != null ==>
                token.Storage() ==
                  if sender == operator then
                    Committed(old(token.Storage()).Transfer(self, to, amount), old(token.Storage()))
                  else old(token.Storage())
    {
      if sender != operator { return Fail(NotOperator); }
      if token == null { return Fail(ZeroToken); }
      if to == ZERO { return Fail(ZeroRecipient); }
      r := token.Transfer(self, to, amount);
    }
  }
}
