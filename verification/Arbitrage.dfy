/** What SandboxBackrun.sol promises: buying A with B in one pool and selling it
    in another, all or nothing, and when that can possibly pay. */
module Arbitrage {
  import opened Evm
  import opened Token
  import opened Quote
  import opened Reserves
  import opened Swaps

  /** Two pools over one pair of tokens. */
  datatype Venues = Venues(buy: Pool, sell: Pool, a: Ledger, b: Ledger) {
    ghost predicate Backed(buyAt: Address, sellAt: Address) {
      Books(buy, a, b).Backed(buyAt) && Books(sell, a, b).Backed(sellAt)
    }
  }

  datatype Route = Route(amountOutA: nat, amountOutB: nat, venues: Venues)

  /** The checks made before any other contract is called. */
  function Guard(sender: Address, operator: Address, buyAt: Address, sellAt: Address, amountInB: nat): Outcome {
    if sender != operator then Fail(NotOperator)
    else if buyAt == ZERO then Fail(ZeroBuyPool)
    else if sellAt == ZERO then Fail(ZeroSellPool)
    else if buyAt == sellAt then Fail(SamePool)
    else if amountInB == 0 then Fail(ZeroAmountIn)
    else Pass
  }

  function SameTokens(buy: Pool, sell: Pool): Outcome {
    if buy.tokenA != sell.tokenA then Fail(TokenAMismatch)
    else if buy.tokenB != sell.tokenB then Fail(TokenBMismatch)
    else Pass
  }

  /** One leg: approve exactly the input and swap it. The approval is used up. */
  function Leg(side: Side, self: Address, at: Address, x: nat, min: nat, k: Books): Result<Fill> {
    SwapOn(side, at, self, x, min,
           if side == SellA then k.(a := k.a.Approve(self, at, x)) else k.(b := k.b.Approve(self, at, x)))
  }

  /** The two approvals, the two swaps and the late profit check. */
  function Execute(
    self: Address, buyAt: Address, sellAt: Address,
    amountInB: nat, minAmountOutA: nat, minAmountOutB: nat, minProfitB: nat, v: Venues)
    : Result<Route>
  {
    var initialB := v.b.BalanceOf(self);
    :- Need(initialB >= amountInB, InsufficientTokenB);
    var bought :- Leg(SellB, self, buyAt, amountInB, minAmountOutA, Books(v.buy, v.a, v.b));
    var sold :- Leg(SellA, self, sellAt, bought.amountOut, minAmountOutB,
                    Books(v.sell, bought.books.a, bought.books.b));
    var profitB :- CheckedSub(sold.books.b.BalanceOf(self), initialB);
    :- Need(profitB >= minProfitB, ProfitBelowMinimum);
    Success(Route(bought.amountOut, sold.amountOut,
                  Venues(bought.books.pool, sold.books.pool, sold.books.a, sold.books.b)))
  }

  /** Selling `y` of B in one pool and the proceeds in the other, on reserves alone. */
  function RouteQuote(y: nat, buy: Pair, sell: Pair): nat
    requires y > 0 && buy.Live() && sell.Live() && buy.QuoteFor(SellB, y) > 0
  {
    sell.QuoteFor(SellA, buy.QuoteFor(SellB, y))
  }

  /** The two floored quotes in a row pay at most the one floored closed form. */
  lemma RouteAtMostClosedForm(y: nat, buy: Pair, sell: Pair)
    requires y > 0 && buy.Live() && sell.Live() && buy.QuoteFor(SellB, y) > 0
    ensures var num := 997 * 997 * y * buy.a * sell.b;
            var den := 1000 * sell.a * (1000 * buy.b + 997 * y) + 997 * 997 * y * buy.a;
            den > 0 && RouteQuote(y, buy, sell) <= Floor(num, den)
  {
    var p, f := 1000 * buy.b + 997 * y, 997 * y * buy.a;
    var outA := buy.QuoteFor(SellB, y);
    FloorGalois(y * 997 * buy.a, buy.b * 1000 + y * 997, outA);
    var outB := sell.QuoteFor(SellA, outA);
    FloorGalois(outA * 997 * sell.b, sell.a * 1000 + outA * 997, outB);
    QuoteIsLargest(outA, sell.a, sell.b, 0);
    Compose(outA, outB, p, f, sell.a, sell.b);
    var den := 1000 * sell.a * p + 997 * f;
    assert 997 * f == 997 * 997 * y * buy.a;
    assert 997 * f * sell.b == 997 * 997 * y * buy.a * sell.b;
    assert den > 0 by { assert sell.a * p > 0; }
    FloorGalois(997 * f * sell.b, den, outB);
  }

  /** `outA * p <= f` substituted into the second floor. */
  lemma Compose(outA: nat, outB: nat, p: nat, f: nat, a2: nat, b2: nat)
    requires outA * p <= f && outB <= b2
    requires outB * (a2 * 1000 + outA * 997) <= outA * 997 * b2
    ensures outB * (1000 * a2 * p + 997 * f) <= 997 * f * b2
  {
    var gap := b2 - outB;
    var lhs := outB * (a2 * 1000);
    assert lhs <= 997 * (outA * gap) by {
      assert outB * (a2 * 1000 + outA * 997) == lhs + 997 * (outA * outB);
      assert outA * 997 * b2 == 997 * (outA * gap) + 997 * (outA * outB);
    }
    assert lhs * p <= 997 * (f * gap) by {
      MulMono(lhs, 997 * (outA * gap), p);
      MulMono(outA * p, f, gap);
      Swap3(outA, gap, p);
    }
    assert outB * (1000 * a2 * p) == lhs * p by { Assoc(outB, a2, p); }
    assert 997 * f * b2 == 997 * (f * gap) + 997 * (f * outB);
    Distribute(outB, 1000 * a2 * p, 997 * f);
  }

  lemma Swap3(a: nat, b: nat, c: nat)
    ensures (997 * (a * b)) * c == 997 * ((a * c) * b)
  {
  }

  lemma Assoc(a: nat, b: nat, c: nat)
    ensures a * (1000 * b * c) == a * (b * 1000) * c
  {
  }

  lemma Distribute(a: nat, b: nat, c: nat)
    ensures a * (b + c) == a * b + a * c
  {
  }

  lemma CancelFactor(a: nat, b: nat, c: nat)
    requires c > 0 && a * c <= b * c
    ensures a <= b
  {
    if b < a {
      MulMono(b + 1, a, c);
    }
  }

  /** A route that does not lose B needs the two prices to differ by more than
      both fees. */
  lemma RouteNeedsPriceGap(y: nat, buy: Pair, sell: Pair)
    requires y > 0 && buy.Live() && sell.Live() && buy.QuoteFor(SellB, y) > 0
    requires RouteQuote(y, buy, sell) >= y
    ensures 997 * 997 * buy.a * sell.b > 1000 * 1000 * sell.a * buy.b
  {
    RouteAtMostClosedForm(y, buy, sell);
    var den := 1000 * sell.a * (1000 * buy.b + 997 * y) + 997 * 997 * y * buy.a;
    var n := 997 * 997 * buy.a * sell.b;
    assert 997 * 997 * y * buy.a * sell.b == n * y;
    FloorGalois(n * y, den, y);
    CancelFactor(den, n, y);
    assert den > 1000 * 1000 * sell.a * buy.b by {
      assert 1000 * sell.a * (1000 * buy.b + 997 * y) == 1000 * 1000 * sell.a * buy.b + 1000 * 997 * (sell.a * y);
      assert sell.a * y > 0;
    }
  }

  /** One leg as a pool and the executor see it: the reserve-level trade, and the
      approval just given used up. */
  ghost predicate LegDone(side: Side, self: Address, at: Address, x: nat, k: Books, fill: Fill) {
    var k' := fill.books;
    && k.Reserves().Accepts(Swap(side, x))
    && k'.Reserves() == k.Reserves().Apply(Swap(side, x))
    && k'.pool.tokenA == k.pool.tokenA && k'.pool.tokenB == k.pool.tokenB
    && fill.amountOut == k.Reserves().QuoteFor(side, x)
    && Moved(k.In(side), k'.In(side), self, at, x)
    && Moved(k.Out(side), k'.Out(side), at, self, fill.amountOut)
    && UsedUp(k.In(side), k'.In(side), self, at)
    && k'.Out(side).allowances == k.Out(side).allowances
  }

  lemma LegEffect(side: Side, self: Address, at: Address, x: nat, min: nat, k: Books)
    requires k.Backed(at)
    requires Leg(side, self, at, x, min, k).Success?
    ensures var fill := Leg(side, self, at, x, min, k).value;
            LegDone(side, self, at, x, k, fill) && fill.amountOut >= min
  {
    var approved := if side == SellA then k.(a := k.a.Approve(self, at, x)) else k.(b := k.b.Approve(self, at, x));
    SwapEffect(side, at, self, x, min, approved);
  }

  /** B after the route: the buy pool took `y`, the sell pool gave `outB`, and
      the executor is left with the difference. */
  ghost predicate Paid(l: Ledger, l': Ledger, self: Address, buyAt: Address, sellAt: Address, y: int, outB: int) {
    && l'.Conserved() && l'.totalSupply == l.totalSupply && l'.minter == l.minter
    && forall c :: l'.BalanceOf(c) ==
         l.BalanceOf(c) + (if c == self then outB - y else if c == buyAt then y else if c == sellAt then -outB else 0)
  }

  /** The owner's allowance for the spender is now zero; no other changed. */
  ghost predicate UsedUp(l: Ledger, l': Ledger, owner: Address, spender: Address) {
    forall o, s :: l'.Allowance(o, s) == if o == owner && s == spender then 0 else l.Allowance(o, s)
  }

  /** A backrun as everyone sees it. Each pool makes its reserve-level trade; A
      passes from the buy pool to the sell pool; the executor keeps its A and is
      left with the difference in B; both approvals are used up. */
  ghost predicate Routed(v: Venues, self: Address, buyAt: Address, sellAt: Address, y: nat, r: Route) {
    var v' := r.venues;
    && v.buy.Reserves().Accepts(Swap(SellB, y))
    && r.amountOutA == v.buy.Reserves().QuoteFor(SellB, y)
    && v.sell.Reserves().Accepts(Swap(SellA, r.amountOutA))
    && r.amountOutB == v.sell.Reserves().QuoteFor(SellA, r.amountOutA)
    && v'.buy.Reserves() == v.buy.Reserves().Apply(Swap(SellB, y))
    && v'.sell.Reserves() == v.sell.Reserves().Apply(Swap(SellA, r.amountOutA))
    && v'.buy.tokenA == v.buy.tokenA && v'.buy.tokenB == v.buy.tokenB
    && v'.sell.tokenA == v.sell.tokenA && v'.sell.tokenB == v.sell.tokenB
    && Moved(v.a, v'.a, buyAt, sellAt, r.amountOutA)
    && Paid(v.b, v'.b, self, buyAt, sellAt, y, r.amountOutB)
    && UsedUp(v.a, v'.a, self, sellAt)
    && UsedUp(v.b, v'.b, self, buyAt)
  }

  /** Buying in one pool leaves the other one backed. */
  lemma OtherStaysBacked(self: Address, buyAt: Address, sellAt: Address, y: nat, v: Venues, bought: Fill)
    requires v.Backed(buyAt, sellAt) && buyAt != sellAt && self != buyAt && self != sellAt
    requires LegDone(SellB, self, buyAt, y, Books(v.buy, v.a, v.b), bought)
    ensures Books(v.sell, bought.books.a, bought.books.b).Backed(sellAt)
  {
  }

  lemma UsedUpOverall(l: Ledger, l1: Ledger, l2: Ledger, owner: Address, spender: Address)
    requires || (UsedUp(l, l1, owner, spender) && l2.allowances == l1.allowances)
             || (l1.allowances == l.allowances && UsedUp(l1, l2, owner, spender))
    ensures UsedUp(l, l2, owner, spender)
  {
    forall o, s ensures l2.Allowance(o, s) == if o == owner && s == spender then 0 else l.Allowance(o, s) {
      assert l1.Allowance(o, s) == l2.Allowance(o, s) || l1.Allowance(o, s) == l.Allowance(o, s);
    }
  }

  /** Two legs in a row make a route. */
  lemma LegsMakeRoute(self: Address, buyAt: Address, sellAt: Address, y: nat, v: Venues, bought: Fill, sold: Fill)
    requires buyAt != sellAt && self != buyAt && self != sellAt
    requires LegDone(SellB, self, buyAt, y, Books(v.buy, v.a, v.b), bought)
    requires LegDone(SellA, self, sellAt, bought.amountOut, Books(v.sell, bought.books.a, bought.books.b), sold)
    ensures Routed(v, self, buyAt, sellAt, y,
                   Route(bought.amountOut, sold.amountOut,
                         Venues(bought.books.pool, sold.books.pool, sold.books.a, sold.books.b)))
  {
    PassedOn(v.a, bought.books.a, sold.books.a, buyAt, self, sellAt, bought.amountOut);
    SpentAndEarned(v.b, bought.books.b, sold.books.b, self, buyAt, sellAt, y, sold.amountOut);
    UsedUpOverall(v.a, bought.books.a, sold.books.a, self, sellAt);
    UsedUpOverall(v.b, bought.books.b, sold.books.b, self, buyAt);
  }

  /** What a successful backrun does, with all three minimums met. */
  lemma ExecuteEffect(
    self: Address, buyAt: Address, sellAt: Address, y: nat, minA: nat, minB: nat, minProfit: nat, v: Venues)
    requires v.Backed(buyAt, sellAt)
    requires buyAt != sellAt && self != buyAt && self != sellAt
    requires Execute(self, buyAt, sellAt, y, minA, minB, minProfit, v).Success?
    ensures var r := Execute(self, buyAt, sellAt, y, minA, minB, minProfit, v).value;
            && Routed(v, self, buyAt, sellAt, y, r)
            && r.amountOutA >= minA && r.amountOutB >= minB && r.amountOutB >= y + minProfit
  {
    var k1 := Books(v.buy, v.a, v.b);
    LegEffect(SellB, self, buyAt, y, minA, k1);
    var bought := Leg(SellB, self, buyAt, y, minA, k1).value;
    OtherStaysBacked(self, buyAt, sellAt, y, v, bought);
    var k2 := Books(v.sell, bought.books.a, bought.books.b);
    LegEffect(SellA, self, sellAt, bought.amountOut, minB, k2);
    var sold := Leg(SellA, self, sellAt, bought.amountOut, minB, k2).value;
    LegsMakeRoute(self, buyAt, sellAt, y, v, bought, sold);
    FinalBalance(v.b, sold.books.b, self, buyAt, sellAt, y, sold.amountOut);
  }

  lemma PassedOn(l: Ledger, l1: Ledger, l2: Ledger, from: Address, via: Address, to: Address, amount: nat)
    requires Moved(l, l1, from, via, amount) && Moved(l1, l2, via, to, amount)
    ensures Moved(l, l2, from, to, amount)
  {
  }

  lemma SpentAndEarned(
    l: Ledger, l1: Ledger, l2: Ledger, self: Address, buyAt: Address, sellAt: Address, y: nat, outB: nat)
    requires buyAt != sellAt && self != buyAt && self != sellAt
    requires Moved(l, l1, self, buyAt, y) && Moved(l1, l2, sellAt, self, outB)
    ensures Paid(l, l2, self, buyAt, sellAt, y, outB)
  {
  }

  /** A leg goes through exactly when the pool fills the trade, the minimum is
      met and the executor has the input. */
  lemma LegSucceedsExactlyWhen(side: Side, self: Address, at: Address, x: nat, min: nat, k: Books)
    requires k.Backed(at) && at != ZERO && self != ZERO && self != at
    ensures Leg(side, self, at, x, min, k).Success? <==>
            && Fills(k.Reserves(), side, x)
            && k.Reserves().QuoteFor(side, x) >= min
            && x <= k.In(side).BalanceOf(self)
  {
    var approved := if side == SellA then k.(a := k.a.Approve(self, at, x)) else k.(b := k.b.Approve(self, at, x));
    SwapSucceedsExactlyWhen(side, at, self, x, min, approved);
  }

  /** A backrun goes through exactly when the executor has the stake, both pools
      fill their trades, both minimums are met and the sale covers the stake and
      the profit asked for. */
  lemma ExecuteSucceedsExactlyWhen(
    self: Address, buyAt: Address, sellAt: Address, y: nat, minA: nat, minB: nat, minProfit: nat, v: Venues)
    requires v.Backed(buyAt, sellAt)
    requires buyAt != sellAt && self != buyAt && self != sellAt && buyAt != ZERO && sellAt != ZERO && self != ZERO
    ensures Execute(self, buyAt, sellAt, y, minA, minB, minProfit, v).Success? <==>
            && y <= v.b.BalanceOf(self)
            && Fills(v.buy.Reserves(), SellB, y)
            && v.buy.Reserves().QuoteFor(SellB, y) >= minA
            && Fills(v.sell.Reserves(), SellA, v.buy.Reserves().QuoteFor(SellB, y))
            && RouteQuote(y, v.buy.Reserves(), v.sell.Reserves()) >= minB
            && RouteQuote(y, v.buy.Reserves(), v.sell.Reserves()) >= y + minProfit
  {
    var k1 := Books(v.buy, v.a, v.b);
    LegSucceedsExactlyWhen(SellB, self, buyAt, y, minA, k1);
    if Leg(SellB, self, buyAt, y, minA, k1).Success? {
      LegEffect(SellB, self, buyAt, y, minA, k1);
      var bought := Leg(SellB, self, buyAt, y, minA, k1).value;
      OtherStaysBacked(self, buyAt, sellAt, y, v, bought);
      var k2 := Books(v.sell, bought.books.a, bought.books.b);
      LegSucceedsExactlyWhen(SellA, self, sellAt, bought.amountOut, minB, k2);
      if Leg(SellA, self, sellAt, bought.amountOut, minB, k2).Success? {
        LegEffect(SellA, self, sellAt, bought.amountOut, minB, k2);
        var sold := Leg(SellA, self, sellAt, bought.amountOut, minB, k2).value;
        LegsMakeRoute(self, buyAt, sellAt, y, v, bought, sold);
        FinalBalance(v.b, sold.books.b, self, buyAt, sellAt, y, sold.amountOut);
      }
    }
  }

  /** A backrun whose two swaps go through fails only for its profit: a loss overflows
      the subtraction, a profit below the minimum is refused. */
  lemma ExecuteFailsWith(
    self: Address, buyAt: Address, sellAt: Address, y: nat, minA: nat, minB: nat, minProfit: nat, v: Venues)
    requires v.Backed(buyAt, sellAt)
    requires buyAt != sellAt && self != buyAt && self != sellAt && buyAt != ZERO && sellAt != ZERO && self != ZERO
    ensures var r := Execute(self, buyAt, sellAt, y, minA, minB, minProfit, v);
            && (r == Revert(InsufficientTokenB) <==> y > v.b.BalanceOf(self))
            && (Fills(v.buy.Reserves(), SellB, y) && y <= v.b.BalanceOf(self) &&
                v.buy.Reserves().QuoteFor(SellB, y) >= minA &&
                Fills(v.sell.Reserves(), SellA, v.buy.Reserves().QuoteFor(SellB, y)) &&
                RouteQuote(y, v.buy.Reserves(), v.sell.Reserves()) >= minB ==>
                  var outB := RouteQuote(y, v.buy.Reserves(), v.sell.Reserves());
                  && (r == Revert(Overflow) <==> outB < y)
                  && (r == Revert(ProfitBelowMinimum) <==> y <= outB < y + minProfit))
  {
    var k1 := Books(v.buy, v.a, v.b);
    if y <= v.b.BalanceOf(self) {
      LegSucceedsExactlyWhen(SellB, self, buyAt, y, minA, k1);
      LegFailsOtherwise(SellB, self, buyAt, y, minA, k1);
      if Leg(SellB, self, buyAt, y, minA, k1).Success? {
        LegEffect(SellB, self, buyAt, y, minA, k1);
        var bought := Leg(SellB, self, buyAt, y, minA, k1).value;
        OtherStaysBacked(self, buyAt, sellAt, y, v, bought);
        var k2 := Books(v.sell, bought.books.a, bought.books.b);
        LegSucceedsExactlyWhen(SellA, self, sellAt, bought.amountOut, minB, k2);
        LegFailsOtherwise(SellA, self, sellAt, bought.amountOut, minB, k2);
        if Leg(SellA, self, sellAt, bought.amountOut, minB, k2).Success? {
          LegEffect(SellA, self, sellAt, bought.amountOut, minB, k2);
          var sold := Leg(SellA, self, sellAt, bought.amountOut, minB, k2).value;
          LegsMakeRoute(self, buyAt, sellAt, y, v, bought, sold);
          FinalBalance(v.b, sold.books.b, self, buyAt, sellAt, y, sold.amountOut);
        }
      }
    }
  }

  /** A leg fails with an error of the pool or of a token. */
  lemma LegFailsOtherwise(side: Side, self: Address, at: Address, x: nat, min: nat, k: Books)
    ensures !Late(Leg(side, self, at, x, min, k).Status())
  {
    var approved := if side == SellA then k.(a := k.a.Approve(self, at, x)) else k.(b := k.b.Approve(self, at, x));
    var r := approved.Reserves();
    QuoteFailsOtherwise(x, r.In(side), r.Out(side));
    SwapFailsOtherwise(at, self, x, min, r.In(side), r.Out(side), approved.In(side), approved.Out(side));
  }

  /** The errors that only the executor itself raises. */
  predicate Late(r: Outcome) {
    r == Fail(InsufficientTokenB) || r == Fail(ProfitBelowMinimum)
  }

  lemma QuoteFailsOtherwise(x: nat, reserveIn: nat, reserveOut: nat)
    ensures !Late(GetAmountOut(x, reserveIn, reserveOut).Status())
  {
  }

  lemma SwapFailsOtherwise(
    self: Address, sender: Address, x: nat, min: nat,
    reserveIn: nat, reserveOut: nat, tokenIn: Ledger, tokenOut: Ledger)
    requires !Late(GetAmountOut(x, reserveIn, reserveOut).Status())
    ensures !Late(SwapExactIn(self, sender, x, min, reserveIn, reserveOut, tokenIn, tokenOut).Status())
  {
    assert !Late(tokenIn.TransferFrom(self, sender, self, x).Status());
    if GetAmountOut(x, reserveIn, reserveOut).Success? {
      assert !Late(tokenOut.Transfer(self, sender, GetAmountOut(x, reserveIn, reserveOut).value).Status());
    }
  }

  /** Which of the first checks fails, in their order. */
  lemma GuardFailsWith(sender: Address, operator: Address, buyAt: Address, sellAt: Address, y: nat)
    ensures var g, asked := Guard(sender, operator, buyAt, sellAt, y), sender == operator;
            && (g == Fail(NotOperator) <==> !asked)
            && (g == Fail(ZeroBuyPool) <==> asked && buyAt == ZERO)
            && (g == Fail(ZeroSellPool) <==> asked && buyAt != ZERO && sellAt == ZERO)
            && (g == Fail(SamePool) <==> asked && buyAt == sellAt && buyAt != ZERO)
            && (g == Fail(ZeroAmountIn) <==> asked && buyAt != ZERO && sellAt != ZERO && buyAt != sellAt && y == 0)
            && (g == Pass <==> asked && buyAt != ZERO && sellAt != ZERO && buyAt != sellAt && y > 0)
  {
  }

  lemma SameTokensFailsWith(buy: Pool, sell: Pool)
    ensures SameTokens(buy, sell) == Fail(TokenAMismatch) <==> buy.tokenA != sell.tokenA
    ensures SameTokens(buy, sell) == Fail(TokenBMismatch) <==> buy.tokenA == sell.tokenA && buy.tokenB != sell.tokenB
    ensures SameTokens(buy, sell) == Pass <==> buy.tokenA == sell.tokenA && buy.tokenB == sell.tokenB
  {
  }

  /** With supplies up to 2^123 nothing in a funded backrun overflows. */
  lemma OrdinaryRouteFits(self: Address, buyAt: Address, sellAt: Address, y: nat, v: Venues)
    requires v.Backed(buyAt, sellAt) && v.a.totalSupply <= SUPPLY_CAP && v.b.totalSupply <= SUPPLY_CAP
    requires buyAt != sellAt && self != buyAt && y <= v.b.BalanceOf(self)
    requires v.buy.Reserves().Accepts(Swap(SellB, y))
    ensures Fills(v.buy.Reserves(), SellB, y)
    ensures Fits(v.buy.Reserves().QuoteFor(SellB, y), v.sell.reserveA, v.sell.reserveB)
  {
    FundedFits(SellB, buyAt, self, y, Books(v.buy, v.a, v.b));
    QuoteIsLargest(y, v.buy.reserveB, v.buy.reserveA, 0);
    TwoHoldings(v.a.balances, buyAt, sellAt);
    TwoHoldings(v.b.balances, sellAt, sellAt);
    NoOverflow(v.buy.Reserves().QuoteFor(SellB, y), v.sell.reserveA, v.sell.reserveB);
  }

  /** So with such supplies it is enough that both pools accept their trades. */
  lemma OrdinaryBackrun(
    self: Address, buyAt: Address, sellAt: Address, y: nat, minA: nat, minB: nat, minProfit: nat, v: Venues)
    requires v.Backed(buyAt, sellAt) && v.a.totalSupply <= SUPPLY_CAP && v.b.totalSupply <= SUPPLY_CAP
    requires buyAt != sellAt && self != buyAt && self != sellAt && buyAt != ZERO && sellAt != ZERO && self != ZERO
    ensures Execute(self, buyAt, sellAt, y, minA, minB, minProfit, v).Success? <==>
            && y <= v.b.BalanceOf(self)
            && v.buy.Reserves().Accepts(Swap(SellB, y))
            && v.buy.Reserves().QuoteFor(SellB, y) >= minA
            && v.sell.Reserves().Accepts(Swap(SellA, v.buy.Reserves().QuoteFor(SellB, y)))
            && RouteQuote(y, v.buy.Reserves(), v.sell.Reserves()) >= minB
            && RouteQuote(y, v.buy.Reserves(), v.sell.Reserves()) >= y + minProfit
  {
    ExecuteSucceedsExactlyWhen(self, buyAt, sellAt, y, minA, minB, minProfit, v);
    if y <= v.b.BalanceOf(self) && v.buy.Reserves().Accepts(Swap(SellB, y)) {
      OrdinaryRouteFits(self, buyAt, sellAt, y, v);
    }
  }

  lemma FinalBalance(l: Ledger, l': Ledger, self: Address, buyAt: Address, sellAt: Address, y: int, outB: int)
    requires Paid(l, l', self, buyAt, sellAt, y, outB)
    ensures l'.BalanceOf(self) == l.BalanceOf(self) + outB - y
  {
  }

  /** A successful backrun proves a price gap, even with no minimum profit. */
  lemma BackrunNeedsPriceGap(
    self: Address, buyAt: Address, sellAt: Address, y: nat, minA: nat, minB: nat, minProfit: nat, v: Venues)
    requires v.Backed(buyAt, sellAt)
    requires buyAt != sellAt && self != buyAt && self != sellAt
    requires Execute(self, buyAt, sellAt, y, minA, minB, minProfit, v).Success?
    ensures 997 * 997 * v.buy.reserveA * v.sell.reserveB > 1000 * 1000 * v.sell.reserveA * v.buy.reserveB
  {
    ExecuteEffect(self, buyAt, sellAt, y, minA, minB, minProfit, v);
    RouteNeedsPriceGap(y, v.buy.Reserves(), v.sell.Reserves());
  }
}
