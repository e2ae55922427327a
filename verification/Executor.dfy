/** The backrun executor over every run: what it earns, what it can lose and to
    whom it is ever exposed. */
module Executor {
  import opened Evm
  import opened Token
  import opened Reserves
  import opened Swaps
  import opened Arbitrage
  import opened World
  import opened Solvency

  /** A successful backrun pays for itself: the executor's A is untouched and
      its B grows by exactly what the sale brought in beyond the stake, which is
      at least the profit asked for; and the pools' prices were apart by more
      than both fees. */
  lemma BackrunPays(w: World, m: Message) returns (amountOutA: nat, amountOutB: nat)
    requires w.Sound() && m.call.ExecuteBackrun? && w.Step(m).Success?
    ensures var c, w' := m.call, w.Exec(m);
            && w.HasPool(c.buyPool) && w.HasPool(c.sellPool)
            && var buy, sell := w.pools[c.buyPool], w.pools[c.sellPool];
            && buy.Reserves().Live() && sell.Reserves().Live() && c.amountInB > 0 && amountOutA > 0
            && amountOutA == buy.Reserves().QuoteFor(SellB, c.amountInB)
            && amountOutB == sell.Reserves().QuoteFor(SellA, amountOutA)
            && buy.tokenA in w'.tokens && buy.tokenB in w'.tokens
            && w'.tokens[buy.tokenA].BalanceOf(w.executor) == w.tokens[buy.tokenA].BalanceOf(w.executor)
            && w'.tokens[buy.tokenB].BalanceOf(w.executor) ==
               w.tokens[buy.tokenB].BalanceOf(w.executor) + amountOutB - c.amountInB
            && amountOutB >= c.amountInB + c.minProfitB
            && 997 * 997 * buy.reserveA * sell.reserveB > 1000 * 1000 * sell.reserveA * buy.reserveB
  {
    var r := BackrunStep(w, m);
    BooksBacked(w, m.call.buyPool);
    BooksBacked(w, m.call.sellPool);
    amountOutA, amountOutB := r.amountOutA, r.amountOutB;
    RouteNeedsPriceGap(m.call.amountInB, w.pools[m.call.buyPool].Reserves(), w.pools[m.call.sellPool].Reserves());
  }

  /** A backrun message goes through exactly when the operator sends it, names two
      different pools over the same tokens, and the stake, the quotes, the minimums
      and the profit are all there. */
  lemma BackrunGoesThroughExactlyWhen(w: World, m: Message)
    requires w.Sound() && w.executor != ZERO && m.call.ExecuteBackrun?
    ensures var c := m.call;
            w.Step(m).Success? <==>
              && m.sender == w.operator && c.buyPool != c.sellPool && c.amountInB > 0
              && c.buyPool in w.pools && c.sellPool in w.pools && w.HasPool(c.buyPool) && w.HasPool(c.sellPool)
              && w.pools[c.buyPool].tokenA == w.pools[c.sellPool].tokenA
              && w.pools[c.buyPool].tokenB == w.pools[c.sellPool].tokenB
              && var buy, sell := w.pools[c.buyPool].Reserves(), w.pools[c.sellPool].Reserves();
              && c.amountInB <= w.BooksOf(c.buyPool).b.BalanceOf(w.executor)
              && Fills(buy, SellB, c.amountInB)
              && buy.QuoteFor(SellB, c.amountInB) >= c.minAmountOutA
              && Fills(sell, SellA, buy.QuoteFor(SellB, c.amountInB))
              && RouteQuote(c.amountInB, buy, sell) >= c.minAmountOutB
              && RouteQuote(c.amountInB, buy, sell) >= c.amountInB + c.minProfitB
  {
    var c := m.call;
    if c.buyPool in w.pools && c.sellPool in w.pools && c.buyPool != c.sellPool {
      BooksBacked(w, c.buyPool);
      BooksBacked(w, c.sellPool);
      if w.pools[c.buyPool].tokenA == w.pools[c.sellPool].tokenA &&
         w.pools[c.buyPool].tokenB == w.pools[c.sellPool].tokenB {
        ExecuteSucceedsExactlyWhen(w.executor, c.buyPool, c.sellPool, c.amountInB, c.minAmountOutA, c.minAmountOutB,
                                   c.minProfitB, w.VenuesAt(c.buyPool, c.sellPool));
      }
    }
  }

  /** A withdrawal goes through exactly when the operator asks for no more than
      the executor has, and moves exactly that. */
  lemma WithdrawEffect(w: World, m: Message)
    requires w.Sound() && m.call.Withdraw?
    ensures var c := m.call;
            w.Step(m).Success? <==>
              && m.sender == w.operator && c.token != ZERO && c.to != ZERO && c.token in w.tokens
              && c.amount <= w.tokens[c.token].BalanceOf(w.executor)
    ensures w.Step(m).Success? ==>
              && m.call.token in w.tokens && m.call.token in w.Exec(m).tokens
              && Moved(w.tokens[m.call.token], w.Exec(m).tokens[m.call.token], w.executor, m.call.to, m.call.amount)
              && w.Exec(m).pools == w.pools
  {
    if m.call.token in w.tokens {
      TransferEffect(w.tokens[m.call.token], w.executor, m.call.to, m.call.amount);
    }
  }

  /** Which requirement a withdrawal fails, in the order they are made. */
  lemma WithdrawFailsWith(w: World, m: Message)
    requires w.Sound() && m.call.Withdraw?
    ensures var c, r, asked := m.call, w.Step(m), m.sender == w.operator;
            && (r == Revert(NotOperator) <==> !asked)
            && (r == Revert(ZeroToken) <==> asked && c.token == ZERO)
            && (r == Revert(ZeroRecipient) <==> asked && c.token != ZERO && c.to == ZERO)
            && (asked && c.token != ZERO && c.to != ZERO ==>
                  && (r == Revert(NoContract) <==> c.token !in w.tokens)
                  && (r == Revert(BalanceExceeded) <==>
                        c.token in w.tokens && c.amount > w.tokens[c.token].BalanceOf(w.executor)))
  {
    if m.call.token in w.tokens {
      TransferFailsWith(w.tokens[m.call.token], w.executor, m.call.to, m.call.amount);
    }
  }

  /** A step that leaves the executor silent and no poorer in one token. */
  ghost predicate KeepsExecutor(w: World, w': World, t: Address) {
    && t in w.tokens && t in w'.tokens
    && w'.tokens[t].GrantsNothing(w.executor)
    && w.tokens[t].BalanceOf(w.executor) <= w'.tokens[t].BalanceOf(w.executor)
  }

  lemma PoolKeepsExecutor(w: World, p: Address, sender: Address, tr: Trade, k: Books, t: Address)
    requires w.Sound() && w.Silent(w.executor) && sender != w.executor && t in w.tokens && w.HasPool(p)
    requires Traded(w.BooksOf(p), p, sender, tr, k)
    ensures KeepsExecutor(w, w.WithBooks(p, k), t)
  {
    BooksBacked(w, p);
    assert w.tokens[t].GrantsNothing(w.executor);
    TradedIsSafe(w.BooksOf(p), p, sender, tr, k, w.executor);
  }

  lemma RouteKeepsExecutor(w: World, buy: Address, sell: Address, y: nat, r: Route, t: Address)
    requires w.Sound() && w.Silent(w.executor) && t in w.tokens
    requires w.HasPool(buy) && w.HasPool(sell)
    requires Routed(w.VenuesAt(buy, sell), w.executor, buy, sell, y, r) && r.amountOutB >= y
    ensures KeepsExecutor(w, w.WithVenues(buy, sell, r.venues), t)
  {
    BooksBacked(w, buy);
    BooksBacked(w, sell);
    var v := w.VenuesAt(buy, sell);
    assert v.a.GrantsNothing(w.executor) && v.b.GrantsNothing(w.executor) && w.tokens[t].GrantsNothing(w.executor);
    assert r.venues.a.GrantsNothing(w.executor) && r.venues.b.GrantsNothing(w.executor);
  }

  lemma TokenKeepsExecutor(w: World, m: Message, t: Address)
    requires w.Sound() && w.Silent(w.executor) && m.sender != w.executor && t in w.tokens
    requires (IsTokenCall(m.call) || m.call.Withdraw?) && w.Step(m).Success?
    ensures t in w.Exec(m).tokens && w.Exec(m).tokens[t].GrantsNothing(w.executor)
    ensures Withdrew(w, m, t)
  {
    var l' := TokenStep(w, m);
    var l := w.tokens[m.call.token];
    assert w.tokens[t].GrantsNothing(w.executor) && l.GrantsNothing(w.executor);
    if m.call.Withdraw? {
      TransferEffect(l, w.executor, m.call.to, m.call.amount);
      SameAllowances(l, l', w.executor);
    } else {
      TokenCallIsSafe(l, m, w.executor);
    }
  }

  /** If the executor's balance fell, the operator withdrew exactly the difference. */
  ghost predicate Withdrew(w: World, m: Message, t: Address)
    requires t in w.tokens && t in w.Exec(m).tokens
  {
    var before, after := w.tokens[t].BalanceOf(w.executor), w.Exec(m).tokens[t].BalanceOf(w.executor);
    after < before ==>
      && m.call.Withdraw? && m.sender == w.operator && m.call.token == t
      && m.call.to != w.executor && before == after + m.call.amount
  }

  /** One step and the executor: its allowances stay at zero, and the only thing
      that ever lowers one of its balances is the operator's withdrawal, by
      exactly the amount withdrawn. */
  lemma StepAndExecutor(w: World, m: Message, t: Address)
    requires w.Sound() && w.Silent(w.executor) && m.sender != w.executor && t in w.tokens
    ensures t in w.Exec(m).tokens && w.Exec(m).tokens[t].GrantsNothing(w.executor)
    ensures Withdrew(w, m, t)
  {
    assert w.tokens[t].GrantsNothing(w.executor);
    if w.Step(m).Success? {
      if IsPoolCall(m.call) {
        var k := PoolStep(w, m);
        PoolKeepsExecutor(w, m.call.pool, m.sender, TradeOf(m.call), k, t);
      } else if m.call.ExecuteBackrun? {
        var r := BackrunStep(w, m);
        RouteKeepsExecutor(w, m.call.buyPool, m.call.sellPool, m.call.amountInB, r, t);
      } else {
        TokenKeepsExecutor(w, m, t);
      }
    }
  }

  /** What the operator takes out of the executor in one token over a run. */
  function Withdrawn(w: World, ms: seq<Message>, t: Address): nat
    decreases |ms|
  {
    if ms == [] then 0
    else
      (if w.Step(ms[0]).Success? && ms[0].call.Withdraw? && ms[0].call.token == t && ms[0].call.to != w.executor
       then ms[0].call.amount else 0)
      + Withdrawn(w.Exec(ms[0]), ms[1..], t)
  }

  /** Over any run from outside the executor never has an allowance open, and
      it ends with at least what it had less what the operator withdrew. */
  lemma {:induction false} RunAndExecutor(w: World, ms: seq<Message>, t: Address)
    requires w.Sound() && w.Silent(w.executor) && FromOutside(w, ms) && t in w.tokens
    ensures t in w.Run(ms).tokens && w.Run(ms).Silent(w.executor)
    ensures w.tokens[t].BalanceOf(w.executor) <= w.Run(ms).tokens[t].BalanceOf(w.executor) + Withdrawn(w, ms, t)
    decreases |ms|
  {
    if ms != [] {
      var w' := w.Exec(ms[0]);
      StepKeepsSound(w, ms[0]);
      forall u | u in w'.tokens ensures w'.tokens[u].GrantsNothing(w.executor) {
        StepAndExecutor(w, ms[0], u);
      }
      StepAndExecutor(w, ms[0], t);
      RunAndExecutor(w', ms[1..], t);
    }
  }
}
