/** The invariant of the deployed contracts is kept by every message from outside:
    supplies are sums of balances, pools hold what they have recorded, and no
    pool has granted an allowance. */
module Solvency {
  import opened Evm
  import opened Token
  import opened Reserves
  import opened Swaps
  import opened Arbitrage
  import opened World

  /** What a call by an outsider to a token cannot do to a holder that has
      granted no allowance. */
  ghost predicate SafeFor(l: Ledger, l': Ledger, holder: Address) {
    && l.BalanceOf(holder) <= l'.BalanceOf(holder)
    && (l.GrantsNothing(holder) ==> l'.GrantsNothing(holder))
  }

  /** A step that leaves the pool's record alone and its holdings no smaller. */
  ghost predicate LeftAlone(w: World, w': World, p: Address)
    requires p in w.pools && p in w'.pools && w'.tokens.Keys == w.tokens.Keys
  {
    && w'.pools[p] == w.pools[p]
    && forall t :: t in w.tokens ==> SafeFor(w.tokens[t], w'.tokens[t], p)
  }

  lemma LeftAloneStaysSound(w: World, w': World, p: Address)
    requires p in w.pools && p in w'.pools && w'.tokens.Keys == w.tokens.Keys
    requires w.PoolSound(p) && LeftAlone(w, w', p)
    ensures w'.PoolSound(p)
  {
    var pool := w.pools[p];
    assert SafeFor(w.tokens[pool.tokenA], w'.tokens[pool.tokenA], p);
    assert SafeFor(w.tokens[pool.tokenB], w'.tokens[pool.tokenB], p);
    forall t | t in w'.tokens ensures w'.tokens[t].GrantsNothing(p) {
      assert w.tokens[t].GrantsNothing(p) && SafeFor(w.tokens[t], w'.tokens[t], p);
    }
  }

  /** An outsider's call to a token is harmless to any other holder that has
      granted no allowance. */
  lemma TokenCallIsSafe(l: Ledger, m: Message, holder: Address)
    requires IsTokenCall(m.call) && CallToken(l, m).Success?
    requires l.Conserved() && l.GrantsNothing(holder) && m.sender != holder
    ensures SafeFor(l, CallToken(l, m).value, holder)
  {
    TokenCallConserves(l, m);
    match m.call {
      case Mint(_, to, n) => MintEffect(l, m.sender, to, n);
      case Approve(_, _, _) =>
        forall s ensures CallToken(l, m).value.Allowance(holder, s) == 0 {
          assert l.Allowance(holder, s) == 0;
        }
      case Transfer(_, to, n) => TransferEffect(l, m.sender, to, n);
      case TransferFrom(_, owner, to, n) =>
        assert l.Allowance(holder, m.sender) == 0;
        TransferFromEffect(l, m.sender, owner, to, n);
    }
  }

  lemma TokenCallConserves(l: Ledger, m: Message)
    requires IsTokenCall(m.call) && CallToken(l, m).Success? && l.Conserved()
    ensures CallToken(l, m).value.Conserved()
  {
    match m.call {
      case Mint(_, to, n) => MintEffect(l, m.sender, to, n);
      case Approve(_, _, _) =>
      case Transfer(_, to, n) => TransferEffect(l, m.sender, to, n);
      case TransferFrom(_, owner, to, n) => TransferFromEffect(l, m.sender, owner, to, n);
    }
  }

  // ---- A token call ----

  lemma TokenKeepsSound(w: World, m: Message)
    requires w.Sound() && m.sender !in w.pools
    requires (IsTokenCall(m.call) || m.call.Withdraw?) && w.Step(m).Success?
    ensures w.Exec(m).Sound() && SameContracts(w, w.Exec(m))
  {
    var l' := TokenStep(w, m);
    var c, t := AsTokenCall(w, m), m.call.token;
    TokenCallConserves(w.tokens[t], c);
    forall p | p in w.pools ensures w.WithToken(t, l').PoolSound(p) {
      assert w.PoolSound(p) && w.tokens[t].GrantsNothing(p);
      TokenCallIsSafe(w.tokens[t], c, p);
      LeftAloneStaysSound(w, w.WithToken(t, l'), p);
    }
  }

  // ---- A call to a pool ----

  /** What the pool's own side of a trade does to the pool. */
  lemma TraderIsSafe(l: Ledger, l': Ledger, sender: Address, p: Address, amount: nat, q: Address)
    requires Moved(l, l', sender, p, amount) && UsedAllowance(l, l', sender, p, amount)
    requires l.GrantsNothing(q) && q != sender
    ensures SafeFor(l, l', q)
  {
  }

  lemma SameAllowances(l: Ledger, l': Ledger, q: Address)
    requires l'.allowances == l.allowances && l.GrantsNothing(q)
    ensures l'.GrantsNothing(q)
  {
    forall s ensures l'.Allowance(q, s) == 0 {
      assert l.Allowance(q, s) == 0;
    }
  }

  lemma TradedIsSafe(k: Books, p: Address, sender: Address, t: Trade, k': Books, q: Address)
    requires Traded(k, p, sender, t, k')
    requires q != sender && k.a.GrantsNothing(q) && k.b.GrantsNothing(q)
    ensures k'.a.GrantsNothing(q) && k'.b.GrantsNothing(q)
    ensures q != p ==> SafeFor(k.a, k'.a, q) && SafeFor(k.b, k'.b, q)
  {
    match t {
      case Seed(x, y) =>
        TraderIsSafe(k.a, k'.a, sender, p, x, q);
        TraderIsSafe(k.b, k'.b, sender, p, y, q);
      case Swap(side, x) =>
        TraderIsSafe(k.In(side), k'.In(side), sender, p, x, q);
        SameAllowances(k.Out(side), k'.Out(side), q);
    }
  }

  lemma TradedStaysBacked(k: Books, p: Address, sender: Address, t: Trade, k': Books)
    requires k.Backed(p) && Traded(k, p, sender, t, k') && sender != p
    ensures k'.Backed(p) && Balanced(k'.Reserves())
  {
    TradeGrowsProduct(k.Reserves(), t);
  }

  lemma PoolKeepsSoundAt(w: World, p: Address, sender: Address, t: Trade, k': Books, q: Address)
    requires w.Sound() && w.HasPool(p) && sender !in w.pools && q in w.pools
    requires Traded(w.BooksOf(p), p, sender, t, k')
    ensures w.WithBooks(p, k').PoolSound(q)
  {
    assert w.PoolSound(q) && w.PoolSound(p);
    TradedIsSafe(w.BooksOf(p), p, sender, t, k', q);
    if q == p {
      BooksBacked(w, p);
      TradedStaysBacked(w.BooksOf(p), p, sender, t, k');
      OwnBooks(w, p, k');
    } else {
      OthersBooks(w, p, k', q);
    }
  }

  lemma PoolKeepsSound(w: World, p: Address, sender: Address, t: Trade, k': Books)
    requires w.Sound() && w.HasPool(p) && sender !in w.pools
    requires Traded(w.BooksOf(p), p, sender, t, k')
    ensures w.WithBooks(p, k').Sound() && SameContracts(w, w.WithBooks(p, k'))
  {
    BooksBacked(w, p);
    TradedStaysBacked(w.BooksOf(p), p, sender, t, k');
    forall q | q in w.pools ensures w.WithBooks(p, k').PoolSound(q) {
      PoolKeepsSoundAt(w, p, sender, t, k', q);
    }
    BooksKeepSound(w, p, k');
  }

  lemma BooksKeepSound(w: World, p: Address, k: Books)
    requires w.Sound() && w.HasPool(p) && k.a.Conserved() && k.b.Conserved()
    requires k.pool.tokenA == w.pools[p].tokenA && k.pool.tokenB == w.pools[p].tokenB
    requires forall q :: q in w.pools ==> w.WithBooks(p, k).PoolSound(q)
    ensures w.WithBooks(p, k).Sound() && SameContracts(w, w.WithBooks(p, k))
  {
  }

  lemma OwnBooks(w: World, p: Address, k: Books)
    requires p in w.pools && w.PoolSound(p)
    requires k.pool.tokenA == w.pools[p].tokenA && k.pool.tokenB == w.pools[p].tokenB
    requires k.Backed(p) && Balanced(k.Reserves()) && k.a.GrantsNothing(p) && k.b.GrantsNothing(p)
    ensures w.WithBooks(p, k).PoolSound(p)
  {
  }

  lemma OthersBooks(w: World, p: Address, k: Books, q: Address)
    requires p in w.pools && w.HasPool(p) && q in w.pools && q != p && w.PoolSound(q)
    requires k.pool.tokenA == w.pools[p].tokenA && k.pool.tokenB == w.pools[p].tokenB
    requires SafeFor(w.BooksOf(p).a, k.a, q) && SafeFor(w.BooksOf(p).b, k.b, q)
    ensures w.WithBooks(p, k).PoolSound(q)
  {
    LeftAloneStaysSound(w, w.WithBooks(p, k), q);
  }

  // ---- A backrun ----

  lemma RoutedIsSafe(v: Venues, e: Address, buy: Address, sell: Address, y: nat, r: Route, q: Address)
    requires Routed(v, e, buy, sell, y, r) && q != e
    requires v.a.GrantsNothing(q) && v.b.GrantsNothing(q)
    ensures r.venues.a.GrantsNothing(q) && r.venues.b.GrantsNothing(q)
    ensures q != buy && q != sell ==> SafeFor(v.a, r.venues.a, q) && SafeFor(v.b, r.venues.b, q)
  {
  }

  lemma RoutedStaysBacked(v: Venues, e: Address, buy: Address, sell: Address, y: nat, r: Route)
    requires v.Backed(buy, sell) && Routed(v, e, buy, sell, y, r)
    requires buy != sell && e != buy && e != sell
    ensures r.venues.Backed(buy, sell)
    ensures Balanced(r.venues.buy.Reserves()) && Balanced(r.venues.sell.Reserves())
  {
    TradeGrowsProduct(v.buy.Reserves(), Swap(SellB, y));
    TradeGrowsProduct(v.sell.Reserves(), Swap(SellA, r.amountOutA));
  }

  lemma OwnVenues(w: World, buy: Address, sell: Address, v': Venues, q: Address)
    requires buy in w.pools && sell in w.pools && buy != sell && q in {buy, sell} && w.PoolSound(q)
    requires v'.buy.tokenA == w.pools[buy].tokenA == v'.sell.tokenA == w.pools[sell].tokenA
    requires v'.buy.tokenB == w.pools[buy].tokenB == v'.sell.tokenB == w.pools[sell].tokenB
    requires v'.Backed(buy, sell) && Balanced(v'.buy.Reserves()) && Balanced(v'.sell.Reserves())
    requires v'.a.GrantsNothing(q) && v'.b.GrantsNothing(q)
    ensures w.WithVenues(buy, sell, v').PoolSound(q)
  {
  }

  lemma OthersVenues(w: World, buy: Address, sell: Address, v': Venues, q: Address)
    requires buy in w.pools && sell in w.pools && w.HasPool(buy) && w.HasPool(sell)
    requires q in w.pools && q != buy && q != sell && w.PoolSound(q)
    requires v'.buy.tokenA == w.pools[buy].tokenA && v'.buy.tokenB == w.pools[buy].tokenB
    requires SafeFor(w.VenuesAt(buy, sell).a, v'.a, q) && SafeFor(w.VenuesAt(buy, sell).b, v'.b, q)
    ensures w.WithVenues(buy, sell, v').PoolSound(q)
  {
    LeftAloneStaysSound(w, w.WithVenues(buy, sell, v'), q);
  }

  lemma RouteKeepsSoundAt(w: World, buy: Address, sell: Address, y: nat, r: Route, q: Address)
    requires w.Sound() && w.HasPool(buy) && w.HasPool(sell) && buy != sell && q in w.pools
    requires w.pools[buy].tokenA == w.pools[sell].tokenA && w.pools[buy].tokenB == w.pools[sell].tokenB
    requires w.VenuesAt(buy, sell).Backed(buy, sell)
    requires Routed(w.VenuesAt(buy, sell), w.executor, buy, sell, y, r)
    ensures w.WithVenues(buy, sell, r.venues).PoolSound(q)
  {
    var v := w.VenuesAt(buy, sell);
    assert w.PoolSound(q);
    RoutedIsSafe(v, w.executor, buy, sell, y, r, q);
    if q == buy || q == sell {
      RoutedStaysBacked(v, w.executor, buy, sell, y, r);
      OwnVenues(w, buy, sell, r.venues, q);
    } else {
      OthersVenues(w, buy, sell, r.venues, q);
    }
  }

  lemma RouteKeepsSound(w: World, buy: Address, sell: Address, y: nat, r: Route)
    requires w.Sound() && w.HasPool(buy) && w.HasPool(sell) && buy != sell
    requires w.pools[buy].tokenA == w.pools[sell].tokenA && w.pools[buy].tokenB == w.pools[sell].tokenB
    requires w.VenuesAt(buy, sell).Backed(buy, sell)
    requires Routed(w.VenuesAt(buy, sell), w.executor, buy, sell, y, r)
    ensures w.WithVenues(buy, sell, r.venues).Sound() && SameContracts(w, w.WithVenues(buy, sell, r.venues))
  {
    RoutedStaysBacked(w.VenuesAt(buy, sell), w.executor, buy, sell, y, r);
    forall q | q in w.pools ensures w.WithVenues(buy, sell, r.venues).PoolSound(q) {
      RouteKeepsSoundAt(w, buy, sell, y, r, q);
    }
    VenuesKeepSound(w, buy, sell, r.venues);
    VenuesKeepContracts(w, buy, sell, r.venues);
  }

  lemma VenuesKeepContracts(w: World, buy: Address, sell: Address, v': Venues)
    requires w.HasPool(buy) && w.HasPool(sell)
    requires v'.buy.tokenA == w.pools[buy].tokenA == v'.sell.tokenA == w.pools[sell].tokenA
    requires v'.buy.tokenB == w.pools[buy].tokenB == v'.sell.tokenB == w.pools[sell].tokenB
    ensures SameContracts(w, w.WithVenues(buy, sell, v'))
  {
  }

  lemma VenuesKeepSound(w: World, buy: Address, sell: Address, v': Venues)
    requires w.Sound() && w.HasPool(buy) && w.HasPool(sell)
    requires v'.a.Conserved() && v'.b.Conserved()
    requires v'.buy.tokenA == w.pools[buy].tokenA == v'.sell.tokenA == w.pools[sell].tokenA
    requires v'.buy.tokenB == w.pools[buy].tokenB == v'.sell.tokenB == w.pools[sell].tokenB
    requires forall q :: q in w.pools ==> w.WithVenues(buy, sell, v').PoolSound(q)
    ensures w.WithVenues(buy, sell, v').Sound()
  {
  }

  // ---- Every run ----

  ghost predicate SameContracts(w: World, w': World) {
    && w'.executor == w.executor && w'.operator == w.operator
    && w'.tokens.Keys == w.tokens.Keys && w'.pools.Keys == w.pools.Keys
    && forall p :: p in w.pools ==> w'.pools[p].tokenA == w.pools[p].tokenA && w'.pools[p].tokenB == w.pools[p].tokenB
  }

  lemma StepKeepsSound(w: World, m: Message)
    requires w.Sound() && m.sender !in w.pools
    ensures w.Exec(m).Sound() && SameContracts(w, w.Exec(m))
  {
    if w.Step(m).Success? {
      if IsPoolCall(m.call) {
        var k := PoolStep(w, m);
        PoolKeepsSound(w, m.call.pool, m.sender, TradeOf(m.call), k);
      } else if m.call.ExecuteBackrun? {
        var r := BackrunStep(w, m);
        RouteKeepsSound(w, m.call.buyPool, m.call.sellPool, m.call.amountInB, r);
      } else {
        TokenKeepsSound(w, m);
      }
    }
  }

  /** Supplies are the sums of balances, pools hold what they have recorded, and
      no pool has granted an allowance, in every reachable world. */
  lemma {:induction false} RunKeepsSound(w: World, ms: seq<Message>)
    requires w.Sound() && FromOutside(w, ms)
    ensures w.Run(ms).Sound() && SameContracts(w, w.Run(ms))
    decreases |ms|
  {
    if ms != [] {
      StepKeepsSound(w, ms[0]);
      RunKeepsSound(w.Exec(ms[0]), ms[1..]);
    }
  }

  lemma SoundSwap(w: World, p: Address, side: Side, sender: Address, x: uint256, min: uint256)
    requires w.Sound() && w.HasPool(p) && p in w.pools && sender !in w.pools && sender != ZERO
    ensures var k := w.BooksOf(p);
            w.Step(Message(sender, SwapExact(p, side, x, min))).Success? <==>
              && Fills(k.Reserves(), side, x)
              && k.Reserves().QuoteFor(side, x) >= min
              && x <= k.In(side).BalanceOf(sender)
              && x <= k.In(side).Allowance(sender, p)
  {
    BooksBacked(w, p);
    SwapSucceedsExactlyWhen(side, p, sender, x, min, w.BooksOf(p));
  }

  /** In any world reachable from a fresh deployment a swap goes through exactly
      when the pool can compute and fill it and the trader's own conditions are
      met: in particular the pool can always pay. With supplies up to 2^123 the
      computation never overflows. Otherwise nothing changes. */
  lemma ReachableSwap(w0: World, ms: seq<Message>, p: Address, side: Side, sender: Address, x: uint256, min: uint256)
    requires Fresh(w0) && FromOutside(w0, ms)
    requires p in w0.pools && sender !in w0.pools && sender != ZERO
    ensures w0.Run(ms).HasPool(p)
    ensures var w, swap := w0.Run(ms), Message(sender, SwapExact(p, side, x, min));
            var k := w.BooksOf(p);
            && (w.Step(swap).Success? <==>
                  && Fills(k.Reserves(), side, x)
                  && k.Reserves().QuoteFor(side, x) >= min
                  && x <= k.In(side).BalanceOf(sender)
                  && x <= k.In(side).Allowance(sender, p))
            && (k.a.totalSupply <= SUPPLY_CAP && k.b.totalSupply <= SUPPLY_CAP && x <= k.In(side).BalanceOf(sender) ==>
                  Fits(x, k.Reserves().In(side), k.Reserves().Out(side)))
            && (w.Step(swap).Revert? ==> w.Exec(swap) == w)
  {
    FreshIsSound(w0);
    RunKeepsSound(w0, ms);
    var w := w0.Run(ms);
    BooksBacked(w, p);
    SoundSwap(w, p, side, sender, x, min);
    var k := w.BooksOf(p);
    if k.a.totalSupply <= SUPPLY_CAP && k.b.totalSupply <= SUPPLY_CAP && x <= k.In(side).BalanceOf(sender) {
      FundedFits(side, p, sender, x, k);
    }
  }
}
