/** The whole sandbox chain as one state machine: any number of tokens and pools
    and one executor, driven by calls from arbitrary accounts. A call that
    reverts leaves the world as it was. */
module World {
  import opened Evm
  import opened Token
  import opened Reserves
  import opened Swaps
  import opened Arbitrage

  datatype Call =
    | Mint(token: Address, to: Address, amount: uint256)
    | Approve(token: Address, spender: Address, amount: uint256)
    | Transfer(token: Address, to: Address, amount: uint256)
    | TransferFrom(token: Address, owner: Address, to: Address, amount: uint256)
    | SeedPool(pool: Address, amountA: uint256, amountB: uint256)
    | SwapExact(pool: Address, side: Side, amountIn: uint256, minAmountOut: uint256)
    | ExecuteBackrun(buyPool: Address, sellPool: Address, amountInB: uint256,
                     minAmountOutA: uint256, minAmountOutB: uint256, minProfitB: uint256)
    | Withdraw(token: Address, to: Address, amount: uint256)

  datatype Message = Message(sender: Address, call: Call)

  predicate IsTokenCall(c: Call) {
    c.Mint? || c.Approve? || c.Transfer? || c.TransferFrom?
  }

  function CallToken(l: Ledger, m: Message): Result<Ledger>
    requires IsTokenCall(m.call)
  {
    match m.call
    case Mint(_, to, n) => l.Mint(m.sender, to, n)
    case Approve(_, spender, n) => Success(l.Approve(m.sender, spender, n))
    case Transfer(_, to, n) => l.Transfer(m.sender, to, n)
    case TransferFrom(_, owner, to, n) => l.TransferFrom(m.sender, owner, to, n)
  }

  datatype World = World(
    tokens: map<Address, Ledger>,
    pools: map<Address, Pool>,
    executor: Address,
    operator: Address)
  {
    /** The pool at this address and both its tokens exist. */
    predicate HasPool(p: Address) {
      p in pools && pools[p].tokenA in tokens && pools[p].tokenB in tokens
    }

    function BooksOf(p: Address): Books
      requires HasPool(p)
    {
      Books(pools[p], tokens[pools[p].tokenA], tokens[pools[p].tokenB])
    }

    function WithToken(t: Address, l: Ledger): World {
      this.(tokens := tokens[t := l])
    }

    function WithBooks(p: Address, k: Books): World {
      this.(tokens := tokens[k.pool.tokenA := k.a][k.pool.tokenB := k.b], pools := pools[p := k.pool])
    }

    function OnToken(m: Message): Result<World>
      requires IsTokenCall(m.call)
    {
      if m.call.token !in tokens then Revert(NoContract)
      else
        var l :- CallToken(tokens[m.call.token], m);
        Success(WithToken(m.call.token, l))
    }

    function Step(m: Message): Result<World> {
      match m.call
      case Mint(_, _, _) => OnToken(m)
      case Approve(_, _, _) => OnToken(m)
      case Transfer(_, _, _) => OnToken(m)
      case TransferFrom(_, _, _, _) => OnToken(m)
      case SeedPool(p, x, y) =>
        :- Need(HasPool(p), NoContract);
        var k :- SeedLiquidity(p, m.sender, x, y, BooksOf(p));
        Success(WithBooks(p, k))
      case SwapExact(p, side, x, min) =>
        :- Need(HasPool(p), NoContract);
        var fill :- SwapOn(side, p, m.sender, x, min, BooksOf(p));
        Success(WithBooks(p, fill.books))
      case ExecuteBackrun(buy, sell, y, minA, minB, minProfit) =>
        :- Guard(m.sender, operator, buy, sell, y);
        :- Need(HasPool(buy) && HasPool(sell), NoContract);
        :- SameTokens(pools[buy], pools[sell]);
        var route :- Execute(executor, buy, sell, y, minA, minB, minProfit, VenuesAt(buy, sell));
        Success(WithVenues(buy, sell, route.venues))
      case Withdraw(t, to, n) =>
        :- Need(m.sender == operator, NotOperator);
        :- Need(t != ZERO, ZeroToken);
        :- Need(to != ZERO, ZeroRecipient);
        :- Need(t in tokens, NoContract);
        var l :- tokens[t].Transfer(executor, to, n);
        Success(WithToken(t, l))
    }

    function VenuesAt(buy: Address, sell: Address): Venues
      requires HasPool(buy) && HasPool(sell)
    {
      Venues(pools[buy], pools[sell], tokens[pools[buy].tokenA], tokens[pools[buy].tokenB])
    }

    function WithVenues(buy: Address, sell: Address, v: Venues): World {
      this.(tokens := tokens[v.buy.tokenA := v.a][v.buy.tokenB := v.b],
            pools := pools[buy := v.buy][sell := v.sell])
    }

    function Exec(m: Message): World {
      Committed(Step(m), this)
    }

    function Run(ms: seq<Message>): World
      decreases |ms|
    {
      if ms == [] then this else Exec(ms[0]).Run(ms[1..])
    }

    /** This account has granted nobody an allowance on any token. */
    ghost predicate Silent(who: Address) {
      forall t :: t in tokens ==> tokens[t].GrantsNothing(who)
    }

    /** A pool's tokens hold at least what the pool has recorded, it is empty on
        both sides or on neither, and it has granted nobody an allowance. */
    ghost predicate PoolSound(p: Address)
      requires p in pools
    {
      && HasPool(p) && pools[p].tokenA != pools[p].tokenB
      && pools[p].reserveA <= tokens[pools[p].tokenA].BalanceOf(p)
      && pools[p].reserveB <= tokens[pools[p].tokenB].BalanceOf(p)
      && Balanced(pools[p].Reserves())
      && Silent(p)
    }

    /** The invariant of the deployment. */
    ghost predicate Sound() {
      && executor !in pools && ZERO !in pools
      && (forall t :: t in tokens ==> tokens[t].Conserved())
      && (forall p {:trigger PoolSound(p)} :: p in pools ==> PoolSound(p))
    }
  }

  /** Contracts never send messages of their own: pools and the executor only
      act when called. */
  ghost predicate FromOutside(w: World, ms: seq<Message>) {
    forall i :: 0 <= i < |ms| ==> ms[i].sender !in w.pools && ms[i].sender != w.executor
  }

  /** Freshly deployed: nothing minted, nothing approved, empty pools. */
  ghost predicate Fresh(w: World) {
    && w.executor !in w.pools && ZERO !in w.pools
    && (forall t :: t in w.tokens ==> w.tokens[t] == Deployed(w.tokens[t].minter))
    && (forall p :: p in w.pools ==>
          && w.HasPool(p) && w.pools[p].tokenA != w.pools[p].tokenB
          && w.pools[p].Reserves() == Pair(0, 0))
  }

  lemma FreshIsSound(w: World)
    requires Fresh(w)
    ensures w.Sound() && w.Silent(w.executor)
  {
    forall p | p in w.pools ensures w.PoolSound(p) {
      assert w.HasPool(p);
    }
  }

  // ---- Steps by what they change ----

  predicate IsPoolCall(c: Call) {
    c.SeedPool? || c.SwapExact?
  }

  function TradeOf(c: Call): Trade
    requires IsPoolCall(c)
  {
    if c.SeedPool? then Seed(c.amountA, c.amountB) else Swap(c.side, c.amountIn)
  }

  /** A withdrawal is the executor's own transfer. */
  function AsTokenCall(w: World, m: Message): Message
    requires IsTokenCall(m.call) || m.call.Withdraw?
  {
    if m.call.Withdraw? then Message(w.executor, Transfer(m.call.token, m.call.to, m.call.amount)) else m
  }

  lemma BooksBacked(w: World, p: Address)
    requires w.Sound() && p in w.pools
    ensures w.HasPool(p) && w.pools[p].tokenA != w.pools[p].tokenB
    ensures w.BooksOf(p).Backed(p) && w.BooksOf(p).a.GrantsNothing(p) && w.BooksOf(p).b.GrantsNothing(p)
  {
    assert w.PoolSound(p);
  }

  lemma TokenStep(w: World, m: Message) returns (l: Ledger)
    requires (IsTokenCall(m.call) || m.call.Withdraw?) && w.Step(m).Success?
    ensures m.call.token in w.tokens && w.Exec(m) == w.WithToken(m.call.token, l)
    ensures CallToken(w.tokens[m.call.token], AsTokenCall(w, m)) == Success(l)
    ensures m.call.Withdraw? ==> m.sender == w.operator
  {
    l := w.Exec(m).tokens[m.call.token];
  }

  lemma PoolStep(w: World, m: Message) returns (k: Books)
    requires w.Sound() && IsPoolCall(m.call) && w.Step(m).Success?
    ensures m.call.pool in w.pools && w.HasPool(m.call.pool) && w.Exec(m) == w.WithBooks(m.call.pool, k)
    ensures Traded(w.BooksOf(m.call.pool), m.call.pool, m.sender, TradeOf(m.call), k)
  {
    var p := m.call.pool;
    BooksBacked(w, p);
    if m.call.SeedPool? {
      k := SeedLiquidity(p, m.sender, m.call.amountA, m.call.amountB, w.BooksOf(p)).value;
      SeedEffect(p, m.sender, m.call.amountA, m.call.amountB, w.BooksOf(p));
    } else {
      k := SwapOn(m.call.side, p, m.sender, m.call.amountIn, m.call.minAmountOut, w.BooksOf(p)).value.books;
      SwapEffect(m.call.side, p, m.sender, m.call.amountIn, m.call.minAmountOut, w.BooksOf(p));
    }
  }

  lemma BackrunStep(w: World, m: Message) returns (r: Route)
    requires w.Sound() && m.call.ExecuteBackrun? && w.Step(m).Success?
    ensures var c := m.call;
            && m.sender == w.operator && c.buyPool != c.sellPool && c.amountInB > 0
            && c.buyPool in w.pools && c.sellPool in w.pools && w.HasPool(c.buyPool) && w.HasPool(c.sellPool)
            && w.pools[c.buyPool].tokenA == w.pools[c.sellPool].tokenA
            && w.pools[c.buyPool].tokenB == w.pools[c.sellPool].tokenB
            && w.Exec(m) == w.WithVenues(c.buyPool, c.sellPool, r.venues)
            && w.VenuesAt(c.buyPool, c.sellPool).Backed(c.buyPool, c.sellPool)
            && Routed(w.VenuesAt(c.buyPool, c.sellPool), w.executor, c.buyPool, c.sellPool, c.amountInB, r)
            && r.amountOutA >= c.minAmountOutA && r.amountOutB >= c.minAmountOutB
            && r.amountOutB >= c.amountInB + c.minProfitB
  {
    var c := m.call;
    BooksBacked(w, c.buyPool);
    BooksBacked(w, c.sellPool);
    var v := w.VenuesAt(c.buyPool, c.sellPool);
    r := Execute(w.executor, c.buyPool, c.sellPool, c.amountInB, c.minAmountOutA, c.minAmountOutB, c.minProfitB,
               v).value;
    ExecuteEffect(w.executor, c.buyPool, c.sellPool, c.amountInB, c.minAmountOutA, c.minAmountOutB, c.minProfitB, v);
  }
}
