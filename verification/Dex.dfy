/** SandboxDex.sol: a constant-product pool that keeps its own record of its
    reserves beside the balances the two tokens hold for it. */
module Dex {
  import opened Evm
  import opened Token
  import opened Swaps

  class SandboxDex {
    const self: Address
    const tokenA: SandboxERC20
    const tokenB: SandboxERC20
    var reserveA: nat
    var reserveB: nat

    function Storage(): Pool
      reads this
    {
      Pool(tokenA.self, tokenB.self, reserveA, reserveB)
    }

    function Records(): Books
      reads this, tokenA, tokenB
    {
      Swaps.Books(Storage(), tokenA.Storage(), tokenB.Storage())
    }

    constructor (self: Address, tokenA: SandboxERC20, tokenB: SandboxERC20)
      requires tokenA != tokenB && tokenA.self != ZERO && tokenB.self != ZERO
      ensures this.self == self && this.tokenA == tokenA && this.tokenB == tokenB
      ensures reserveA == reserveB == 0
    {
      this.self, this.tokenA, this.tokenB := self, tokenA, tokenB;
      reserveA, reserveB := 0, 0;
    }

    method RollBack(k: Books)
      requires tokenA != tokenB
      requires k.pool.tokenA == tokenA.self && k.pool.tokenB == tokenB.self
      requires k.a.minter == tokenA.minter && k.b.minter == tokenB.minter
      modifies this, tokenA, tokenB
      ensures Records() == k
    {
      reserveA, reserveB := k.pool.reserveA, k.pool.reserveB;
      tokenA.RollBack(k.a);
      tokenB.RollBack(k.b);
    }

    method SeedLiquidity(sender: Address, amountA: uint256, amountB: uint256) returns (r: Outcome)
      requires tokenA != tokenB
      modifies this, tokenA, tokenB
      ensures r == Swaps.SeedLiquidity(self, sender, amountA, amountB, old(Records())).Status()
      ensures Records() ==
              Committed(Swaps.SeedLiquidity(self, sender, amountA, amountB, old(Records())), old(Records()))
    {
      if amountA == 0 { return Fail(ZeroAmountA); }
      if amountB == 0 { return Fail(ZeroAmountB); }
      var before := Records();
      r := tokenA.TransferFrom(self, sender, self, amountA);
      if r.Fail? { return; }
      r := tokenB.TransferFrom(self, sender, self, amountB);
      if r.Fail? {
        RollBack(before);
        return;
      }
      if reserveA + amountA > MAX_UINT256 || reserveB + amountB > MAX_UINT256 {
        RollBack(before);
        return Fail(Overflow);
      }
      reserveA := reserveA + amountA;
      reserveB := reserveB + amountB;
    }

    /** The internal `_swapExactIn`, which never touches the reserves. */
    method SwapExactIn(
      tokenIn: SandboxERC20, tokenOut: SandboxERC20, sender: Address,
      amountIn: uint256, minAmountOut: uint256, reserveIn: nat, reserveOut: nat)
      returns (r: Result<nat>)
      requires tokenIn != tokenOut
      modifies tokenIn, tokenOut
      ensures var call := Swaps.SwapExactIn(self, sender, amountIn, minAmountOut, reserveIn, reserveOut,
                                            old(tokenIn.Storage()), old(tokenOut.Storage()));
              && r.Status() == call.Status()
              && (call.Success? ==> (r.value, tokenIn.Storage(), tokenOut.Storage()) == call.value)
              && (call.Revert? ==>
                    tokenIn.Storage() == old(tokenIn.Storage()) && tokenOut.Storage() == old(tokenOut.Storage()))
    {
      r := GetAmountOut(amountIn, reserveIn, reserveOut);
      if r.Revert? { return; }
      if r.value == 0 { return Revert(ZeroAmountOut); }
      if r.value < minAmountOut { return Revert(Slippage); }
      var before := tokenIn.Storage();
      var paid := tokenIn.TransferFrom(self, sender, self, amountIn);
      if paid.Fail? { return Revert(paid.error); }
      var drawn := tokenOut.Transfer(self, sender, r.value);
      if drawn.Fail? {
        tokenIn.RollBack(before);
        return Revert(drawn.error);
      }
    }

    method SwapExactAForB(sender: Address, amountIn: uint256, minAmountOut: uint256) returns (r: Result<nat>)
      requires tokenA != tokenB
      modifies this, tokenA, tokenB
      ensures var call := Swaps.SwapExactAForB(self, sender, amountIn, minAmountOut, old(Records()));
              && r.Status() == call.Status()
              && (call.Success? ==> r.value == call.value.amountOut && Records() == call.value.books)
              && (call.Revert? ==> Records() == old(Records()))
    {
      var before := Records();
      r := SwapExactIn(tokenA, tokenB, sender, amountIn, minAmountOut, reserveA, reserveB);
      if r.Revert? { return; }
      if reserveA + amountIn > MAX_UINT256 || reserveB < r.value {
        RollBack(before);
        return Revert(Overflow);
      }
      reserveA := reserveA + amountIn;
      reserveB := reserveB - r.value;
    }

    method SwapExactBForA(sender: Address, amountIn: uint256, minAmountOut: uint256) returns (r: Result<nat>)
      requires tokenA != tokenB
      modifies this, tokenA, tokenB
      ensures var call := Swaps.SwapExactBForA(self, sender, amountIn, minAmountOut, old(Records()));
              && r.Status() == call.Status()
              && (call.Success? ==> r.value == call.value.amountOut && Records() == call.value.books)
              && (call.Revert? ==> Records() == old(Records()))
    {
      var before := Records();
      r := SwapExactIn(tokenB, tokenA, sender, amountIn, minAmountOut, reserveB, reserveA);
      if r.Revert? { return; }
      if reserveB + amountIn > MAX_UINT256 || reserveA < r.value {
        RollBack(before);
        return Revert(Overflow);
      }
      reserveB := reserveB + amountIn;
      reserveA := reserveA - r.value;
    }
  }
}
