/** Nobody gets something for nothing: what any run of the deployment does to
    the reserves of its pools. */
module Growth {
  import opened Evm
  import opened Reserves
  import opened Market
  import opened Swaps
  import opened World
  import opened Solvency

  predicate Touches(c: Call, p: Address) {
    match c
    case SeedPool(q, _, _) => q == p
    case SwapExact(q, _, _, _) => q == p
    case ExecuteBackrun(buy, sell, _, _, _, _) => buy == p || sell == p
    case _ => false
  }

  lemma PoolStepGrows(w: World, m: Message)
    requires w.Sound() && IsPoolCall(m.call) && w.Step(m).Success?
    ensures var p := m.call.pool;
            && p in w.pools && w.Exec(m).pools.Keys == w.pools.Keys
            && w.pools[p].Reserves().Product() < w.Exec(m).pools[p].Reserves().Product()
            && forall q :: q in w.pools && q != p ==> w.Exec(m).pools[q] == w.pools[q]
  {
    var k := PoolStep(w, m);
    TradeGrowsProduct(w.BooksOf(m.call.pool).Reserves(), TradeOf(m.call));
  }

  lemma BackrunGrows(w: World, m: Message)
    requires w.Sound() && m.call.ExecuteBackrun? && w.Step(m).Success?
    ensures var buy, sell := m.call.buyPool, m.call.sellPool;
            && buy in w.pools && sell in w.pools && w.Exec(m).pools.Keys == w.pools.Keys
            && w.pools[buy].Reserves().Product() < w.Exec(m).pools[buy].Reserves().Product()
            && w.pools[sell].Reserves().Product() < w.Exec(m).pools[sell].Reserves().Product()
            && forall q :: q in w.pools && q != buy && q != sell ==> w.Exec(m).pools[q] == w.pools[q]
  {
    var r := BackrunStep(w, m);
    TradeGrowsProduct(w.pools[m.call.buyPool].Reserves(), Swap(SellB, m.call.amountInB));
    TradeGrowsProduct(w.pools[m.call.sellPool].Reserves(), Swap(SellA, r.amountOutA));
  }

  lemma StepGrowsPool(w: World, m: Message, p: Address)
    requires w.Sound() && p in w.pools
    ensures p in w.Exec(m).pools && Grew(w.pools[p].Reserves(), w.Exec(m).pools[p].Reserves())
    ensures w.Step(m).Success? && Touches(m.call, p) ==>
              w.pools[p].Reserves().Product() < w.Exec(m).pools[p].Reserves().Product()
  {
    if w.Step(m).Success? {
      if IsPoolCall(m.call) {
        PoolStepGrows(w, m);
      } else if m.call.ExecuteBackrun? {
        BackrunGrows(w, m);
      }
    }
  }

  /** Some message of the run trades on this pool and goes through. */
  predicate TradesOn(w: World, ms: seq<Message>, p: Address)
    decreases |ms|
  {
    ms != [] && ((w.Step(ms[0]).Success? && Touches(ms[0].call, p)) || TradesOn(w.Exec(ms[0]), ms[1..], p))
  }

  /** A pool that was traded on never gets back to the reserves it had. */
  lemma {:induction false} RunGrowsPool(w: World, ms: seq<Message>, p: Address)
    requires w.Sound() && FromOutside(w, ms) && p in w.pools
    ensures p in w.Run(ms).pools && Grew(w.pools[p].Reserves(), w.Run(ms).pools[p].Reserves())
    ensures TradesOn(w, ms, p) ==> w.pools[p].Reserves().Product() < w.Run(ms).pools[p].Reserves().Product()
    decreases |ms|
  {
    if ms != [] {
      StepGrowsPool(w, ms[0], p);
      StepKeepsSound(w, ms[0]);
      RunGrowsPool(w.Exec(ms[0]), ms[1..], p);
    }
  }

  function ReservesAt(w: World, ps: seq<Address>): seq<Pair>
    requires forall i :: 0 <= i < |ps| ==> ps[i] in w.pools
  {
    seq(|ps|, i requires 0 <= i < |ps| => w.pools[ps[i]].Reserves())
  }

  /** Take any list of pools that stand at one price. Whatever anyone does to the
      whole deployment, once one of them has been traded on their combined
      recorded reserves are never both back to, or below, where they started. */
  lemma NoFreeLunch(w: World, ms: seq<Message>, ps: seq<Address>, traded: Address)
    requires w.Sound() && FromOutside(w, ms)
    requires forall i :: 0 <= i < |ps| ==> ps[i] in w.pools
    requires OnePrice(ReservesAt(w, ps))
    requires traded in ps && TradesOn(w, ms, traded)
    ensures w.Run(ms).pools.Keys == w.pools.Keys
    ensures !NoneLarger(Sum(ReservesAt(w.Run(ms), ps)), Sum(ReservesAt(w, ps)))
  {
    RunKeepsSound(w, ms);
    var before, after := ReservesAt(w, ps), ReservesAt(w.Run(ms), ps);
    forall i | 0 <= i < |ps| ensures Grew(before[i], after[i]) {
      RunGrowsPool(w, ms, ps[i]);
    }
    var i :| 0 <= i < |ps| && ps[i] == traded;
    RunGrowsPool(w, ms, traded);
    assert before[i] != after[i];
    NothingForNothingAcrossPools(before, after);
  }

  // ---- The chain refines the reserve-level runs ----

  /** The reserve-level trades a message makes on one pool. */
  function TradesOf(w: World, m: Message, p: Address): seq<Trade> {
    if w.Step(m).Revert? || !Touches(m.call, p) then []
    else match m.call
      case SeedPool(_, x, y) => [Seed(x, y)]
      case SwapExact(_, side, x, _) => [Swap(side, x)]
      case ExecuteBackrun(buy, sell, y, _, _, _) =>
        if p == buy then [Swap(SellB, y)]
        else if buy in w.pools && w.pools[buy].Reserves().Accepts(Swap(SellB, y)) then
          [Swap(SellA, w.pools[buy].Reserves().QuoteFor(SellB, y))]
        else []
      case _ => []
  }

  function RunTrades(w: World, ms: seq<Message>, p: Address): seq<Trade>
    decreases |ms|
  {
    if ms == [] then [] else TradesOf(w, ms[0], p) + RunTrades(w.Exec(ms[0]), ms[1..], p)
  }

  lemma StepRefinesReserves(w: World, m: Message, p: Address)
    requires w.Sound() && m.sender !in w.pools && p in w.pools
    ensures p in w.Exec(m).pools
    ensures w.Exec(m).pools[p].Reserves() == w.pools[p].Reserves().Run(TradesOf(w, m, p))
    ensures forall t :: t in TradesOf(w, m, p) ==> w.pools[p].Reserves().Accepts(t)
  {
    if w.Step(m).Success? {
      if IsPoolCall(m.call) {
        var k := PoolStep(w, m);
        OneTrade(w.BooksOf(m.call.pool).Reserves(), TradeOf(m.call));
      } else if m.call.ExecuteBackrun? {
        var r := BackrunStep(w, m);
        OneTrade(w.pools[m.call.buyPool].Reserves(), Swap(SellB, m.call.amountInB));
        OneTrade(w.pools[m.call.sellPool].Reserves(), Swap(SellA, r.amountOutA));
      } else {
        var l := TokenStep(w, m);
      }
    }
  }

  lemma OneTrade(r: Pair, t: Trade)
    ensures r.Run([t]) == r.Step(t)
  {
    assert [t][1..] == [];
  }

  lemma {:induction false} RunConcat(r: Pair, ts: seq<Trade>, us: seq<Trade>)
    ensures r.Run(ts + us) == r.Run(ts).Run(us)
    decreases |ts|
  {
    if ts == [] {
      assert ts + us == us;
    } else {
      assert (ts + us)[1..] == ts[1..] + us;
      RunConcat(r.Step(ts[0]), ts[1..], us);
    }
  }

  /** Whatever happens on the chain, a pool's reserves are those of a
      reserve-level run, so every law of such runs holds of every pool. */
  lemma {:induction false} RunRefinesReserves(w: World, ms: seq<Message>, p: Address)
    requires w.Sound() && FromOutside(w, ms) && p in w.pools
    ensures p in w.Run(ms).pools
    ensures w.Run(ms).pools[p].Reserves() == w.pools[p].Reserves().Run(RunTrades(w, ms, p))
    decreases |ms|
  {
    if ms != [] {
      StepKeepsSound(w, ms[0]);
      StepRefinesReserves(w, ms[0], p);
      RunRefinesReserves(w.Exec(ms[0]), ms[1..], p);
      RunConcat(w.pools[p].Reserves(), TradesOf(w, ms[0], p), RunTrades(w.Exec(ms[0]), ms[1..], p));
    }
  }

  /** After any run in which the pool was only ever swapped the other way, a swap
      with a minimum at or below the earlier quote still goes through, as long as
      the trader can pay and the pool can compute the quote. */
  lemma EarlierMinimumStillPasses(
    w: World, ms: seq<Message>, p: Address, side: Side, sender: Address, x: uint256, min: uint256)
    requires w.Sound() && FromOutside(w, ms) && p in w.pools && sender !in w.pools && sender != ZERO
    requires w.pools[p].Reserves().Accepts(Swap(side, x)) && min <= w.pools[p].Reserves().QuoteFor(side, x)
    requires AllSell(Other(side), RunTrades(w, ms, p))
    ensures w.Run(ms).HasPool(p)
    ensures var k := w.Run(ms).BooksOf(p);
            w.Run(ms).Step(Message(sender, SwapExact(p, side, x, min))).Success? <==>
              && Fits(x, k.Reserves().In(side), k.Reserves().Out(side))
              && x <= k.In(side).BalanceOf(sender) && x <= k.In(side).Allowance(sender, p)
  {
    RunKeepsSound(w, ms);
    RunRefinesReserves(w, ms, p);
    QuoteStability(w.pools[p].Reserves(), side, x, [], RunTrades(w, ms, p));
    BooksBacked(w.Run(ms), p);
    SoundSwap(w.Run(ms), p, side, sender, x, min);
  }
}
