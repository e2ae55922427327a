/** The same law seen from the other side: what everyone but the pools holds. Pools
    at one price cannot be traded with so that all others together end up with no
    less of either token. */
module Holdings {
  import opened Evm
  import opened Token
  import opened Reserves
  import opened Market
  import opened Swaps
  import opened Arbitrage
  import opened World
  import opened Solvency
  import opened Growth

  function Members(ps: seq<Address>): set<Address> {
    set p | p in ps
  }

  ghost predicate Distinct(ps: seq<Address>) {
    forall i, j :: 0 <= i < j < |ps| ==> ps[i] != ps[j]
  }

  /** What these accounts hold together. */
  function Held(m: map<Address, nat>, ps: seq<Address>): nat {
    if ps == [] then 0 else Held(m, ps[..|ps| - 1]) + At(m, ps[|ps| - 1])
  }

  /** What all other accounts hold together. */
  ghost function HeldOutside(l: Ledger, ps: seq<Address>): nat {
    SumOf(l.balances - Members(ps))
  }

  lemma {:induction false} SumSplits(m: map<Address, nat>, ps: seq<Address>)
    requires Distinct(ps)
    ensures SumOf(m) == SumOf(m - Members(ps)) + Held(m, ps)
  {
    if ps == [] {
      assert m - Members(ps) == m;
    } else {
      var n := |ps| - 1;
      var p, others := ps[n], m - Members(ps[..n]);
      SumSplits(m, ps[..n]);
      assert Members(ps) == Members(ps[..n]) + {p};
      assert p !in Members(ps[..n]);
      if p in m {
        SumWithout(others, p);
        assert others - {p} == m - Members(ps);
      } else {
        assert others == m - Members(ps);
      }
    }
  }

  /** Donations: what a pool holds beyond what it has recorded never falls. */
  ghost predicate KeepsSurplus(w: World, w': World, p: Address)
    requires p in w.pools && p in w'.pools && w.HasPool(p) && w'.HasPool(p)
  {
    var k, k' := w.BooksOf(p), w'.BooksOf(p);
    && k.a.BalanceOf(p) - k.pool.reserveA <= k'.a.BalanceOf(p) - k'.pool.reserveA
    && k.b.BalanceOf(p) - k.pool.reserveB <= k'.b.BalanceOf(p) - k'.pool.reserveB
  }

  lemma PoolKeepsSurplus(w: World, p: Address, sender: Address, t: Trade, k: Books, q: Address)
    requires w.Sound() && p in w.pools && w.HasPool(p) && sender !in w.pools && q in w.pools
    requires Traded(w.BooksOf(p), p, sender, t, k)
    ensures w.WithBooks(p, k).HasPool(q)
    ensures w.HasPool(q) && KeepsSurplus(w, w.WithBooks(p, k), q)
  {
    BooksBacked(w, p);
    BooksBacked(w, q);
    if q == p {
      OwnSurplus(w.BooksOf(p), p, sender, t, k);
    } else {
      assert w.PoolSound(q);
      TradedIsSafe(w.BooksOf(p), p, sender, t, k, q);
    }
  }

  lemma OwnSurplus(k: Books, p: Address, sender: Address, t: Trade, k': Books)
    requires Traded(k, p, sender, t, k') && sender != p
    ensures k'.a.BalanceOf(p) - k'.pool.reserveA == k.a.BalanceOf(p) - k.pool.reserveA
    ensures k'.b.BalanceOf(p) - k'.pool.reserveB == k.b.BalanceOf(p) - k.pool.reserveB
  {
  }

  lemma RouteKeepsSurplus(w: World, buy: Address, sell: Address, y: nat, r: Route, q: Address)
    requires w.Sound() && buy in w.pools && sell in w.pools && w.HasPool(buy) && w.HasPool(sell) && buy != sell
    requires w.pools[buy].tokenA == w.pools[sell].tokenA && w.pools[buy].tokenB == w.pools[sell].tokenB
    requires Routed(w.VenuesAt(buy, sell), w.executor, buy, sell, y, r) && q in w.pools
    ensures w.WithVenues(buy, sell, r.venues).HasPool(q)
    ensures w.HasPool(q) && KeepsSurplus(w, w.WithVenues(buy, sell, r.venues), q)
  {
    BooksBacked(w, buy);
    BooksBacked(w, sell);
    BooksBacked(w, q);
    if q != buy && q != sell {
      assert w.PoolSound(q);
      RoutedIsSafe(w.VenuesAt(buy, sell), w.executor, buy, sell, y, r, q);
    }
  }

  lemma StepKeepsSurplus(w: World, m: Message, q: Address)
    requires w.Sound() && m.sender !in w.pools && q in w.pools
    ensures q in w.Exec(m).pools && w.HasPool(q) && w.Exec(m).HasPool(q) && KeepsSurplus(w, w.Exec(m), q)
  {
    BooksBacked(w, q);
    if w.Step(m).Success? {
      if IsPoolCall(m.call) {
        var k := PoolStep(w, m);
        PoolKeepsSurplus(w, m.call.pool, m.sender, TradeOf(m.call), k, q);
      } else if m.call.ExecuteBackrun? {
        var r := BackrunStep(w, m);
        RouteKeepsSurplus(w, m.call.buyPool, m.call.sellPool, m.call.amountInB, r, q);
      } else {
        var l := TokenStep(w, m);
        assert w.PoolSound(q) && w.tokens[m.call.token].GrantsNothing(q);
        TokenCallIsSafe(w.tokens[m.call.token], AsTokenCall(w, m), q);
      }
    }
  }

  lemma {:induction false} RunKeepsSurplus(w: World, ms: seq<Message>, q: Address)
    requires w.Sound() && FromOutside(w, ms) && q in w.pools
    ensures q in w.Run(ms).pools && w.HasPool(q) && w.Run(ms).HasPool(q) && KeepsSurplus(w, w.Run(ms), q)
    decreases |ms|
  {
    BooksBacked(w, q);
    if ms != [] {
      StepKeepsSound(w, ms[0]);
      StepKeepsSurplus(w, ms[0], q);
      RunKeepsSurplus(w.Exec(ms[0]), ms[1..], q);
    }
  }

  predicate MintsNo(t: Address, ms: seq<Message>) {
    forall i :: 0 <= i < |ms| ==> !(ms[i].call.Mint? && ms[i].call.token == t)
  }

  lemma StepKeepsSupply(w: World, m: Message, t: Address)
    requires w.Sound() && t in w.tokens && MintsNo(t, [m])
    ensures t in w.Exec(m).tokens && w.Exec(m).tokens[t].totalSupply == w.tokens[t].totalSupply
  {
    assert [m][0] == m;
    if w.Step(m).Success? {
      if IsPoolCall(m.call) {
        var k := PoolStep(w, m);
      } else if m.call.ExecuteBackrun? {
        var r := BackrunStep(w, m);
      } else {
        var l := TokenStep(w, m);
        if m.call.token == t {
          TokenCallKeepsSupply(w.tokens[t], AsTokenCall(w, m));
        }
      }
    }
  }

  lemma TokenCallKeepsSupply(l: Ledger, m: Message)
    requires l.Conserved() && IsTokenCall(m.call) && !m.call.Mint? && CallToken(l, m).Success?
    ensures CallToken(l, m).value.totalSupply == l.totalSupply
  {
    match m.call {
      case Approve(_, _, _) =>
      case Transfer(_, to, n) => TransferEffect(l, m.sender, to, n);
      case TransferFrom(_, owner, to, n) => TransferFromEffect(l, m.sender, owner, to, n);
    }
  }

  lemma {:induction false} RunKeepsSupply(w: World, ms: seq<Message>, t: Address)
    requires w.Sound() && FromOutside(w, ms) && t in w.tokens && MintsNo(t, ms)
    ensures t in w.Run(ms).tokens && w.Run(ms).tokens[t].totalSupply == w.tokens[t].totalSupply
    decreases |ms|
  {
    if ms != [] {
      assert [ms[0]][0] == ms[0];
      StepKeepsSound(w, ms[0]);
      StepKeepsSupply(w, ms[0], t);
      RunKeepsSupply(w.Exec(ms[0]), ms[1..], t);
    }
  }

  /** These pools all trade this pair of tokens. */
  ghost predicate OverPair(w: World, ps: seq<Address>, tokenA: Address, tokenB: Address) {
    && tokenA in w.tokens && tokenB in w.tokens
    && forall i :: 0 <= i < |ps| ==>
         ps[i] in w.pools && w.pools[ps[i]].tokenA == tokenA && w.pools[ps[i]].tokenB == tokenB
  }

  lemma SumAtLast(w: World, ps: seq<Address>)
    requires ps != [] && forall i :: 0 <= i < |ps| ==> ps[i] in w.pools
    ensures Sum(ReservesAt(w, ps)) ==
            Plus(Sum(ReservesAt(w, ps[..|ps| - 1])), w.pools[ps[|ps| - 1]].Reserves())
  {
    assert ReservesAt(w, ps)[..|ps| - 1] == ReservesAt(w, ps[..|ps| - 1]);
  }

  /** Together, too, the pools hold no less beyond their records than before. */
  lemma {:induction false} SurplusesAdd(w: World, w': World, ps: seq<Address>, tokenA: Address, tokenB: Address)
    requires OverPair(w, ps, tokenA, tokenB) && OverPair(w', ps, tokenA, tokenB)
    requires forall i :: 0 <= i < |ps| ==>
               w.HasPool(ps[i]) && w'.HasPool(ps[i]) && KeepsSurplus(w, w', ps[i])
    ensures var r, r' := Sum(ReservesAt(w, ps)), Sum(ReservesAt(w', ps));
            && Held(w.tokens[tokenA].balances, ps) - r.a <= Held(w'.tokens[tokenA].balances, ps) - r'.a
            && Held(w.tokens[tokenB].balances, ps) - r.b <= Held(w'.tokens[tokenB].balances, ps) - r'.b
  {
    if ps != [] {
      var n := |ps| - 1;
      SurplusesAdd(w, w', ps[..n], tokenA, tokenB);
      SumAtLast(w, ps);
      SumAtLast(w', ps);
      assert KeepsSurplus(w, w', ps[n]);
    }
  }

  /** If all others end up with no less of a token, the pools hold no more of it. */
  lemma OthersOrPools(l: Ledger, l': Ledger, ps: seq<Address>)
    requires l.Conserved() && l'.Conserved() && l.totalSupply == l'.totalSupply && Distinct(ps)
    requires HeldOutside(l, ps) <= HeldOutside(l', ps)
    ensures Held(l'.balances, ps) <= Held(l.balances, ps)
  {
    SumSplits(l.balances, ps);
    SumSplits(l'.balances, ps);
  }

  /** Take any list of pools over one pair that stand at one price. Whatever happens
      on the whole deployment without minting the two tokens, once one of the pools
      has been traded on, all other accounts together hold less of A or less of B
      than before. */
  lemma EveryoneElsePays(
    w: World, ms: seq<Message>, ps: seq<Address>, tokenA: Address, tokenB: Address, traded: Address)
    requires w.Sound() && FromOutside(w, ms)
    requires OverPair(w, ps, tokenA, tokenB) && Distinct(ps)
    requires OnePrice(ReservesAt(w, ps)) && traded in ps && TradesOn(w, ms, traded)
    requires MintsNo(tokenA, ms) && MintsNo(tokenB, ms)
    ensures tokenA in w.Run(ms).tokens && tokenB in w.Run(ms).tokens
    ensures || HeldOutside(w.Run(ms).tokens[tokenA], ps) < HeldOutside(w.tokens[tokenA], ps)
            || HeldOutside(w.Run(ms).tokens[tokenB], ps) < HeldOutside(w.tokens[tokenB], ps)
  {
    var w' := w.Run(ms);
    RunKeepsSound(w, ms);
    RunKeepsSupply(w, ms, tokenA);
    RunKeepsSupply(w, ms, tokenB);
    forall i | 0 <= i < |ps| ensures w.HasPool(ps[i]) && w'.HasPool(ps[i]) && KeepsSurplus(w, w', ps[i]) {
      RunKeepsSurplus(w, ms, ps[i]);
    }
    SurplusesAdd(w, w', ps, tokenA, tokenB);
    NoFreeLunch(w, ms, ps, traded);
    if HeldOutside(w.tokens[tokenA], ps) <= HeldOutside(w'.tokens[tokenA], ps) {
      OthersOrPools(w.tokens[tokenA], w'.tokens[tokenA], ps);
    }
    if HeldOutside(w.tokens[tokenB], ps) <= HeldOutside(w'.tokens[tokenB], ps) {
      OthersOrPools(w.tokens[tokenB], w'.tokens[tokenB], ps);
    }
  }
}
