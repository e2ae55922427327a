/** One pool as a pair of reserves moved by swaps and seedings, and the laws
    its reserves obey over runs of any length. */
module Reserves {
  import opened Quote

  /** Which token the trader pays in. */
  datatype Side = SellA | SellB

  datatype Trade =
    | Swap(side: Side, amountIn: nat)
    | Seed(amountA: nat, amountB: nat)

  datatype Pair = Pair(a: nat, b: nat) {
    predicate Live() {
      a > 0 && b > 0
    }

    function In(side: Side): nat {
      if side == SellA then a else b
    }

    function Out(side: Side): nat {
      if side == SellA then b else a
    }

    function Product(): nat {
      a * b
    }

    function QuoteFor(side: Side, amountIn: nat): nat
      requires amountIn > 0 && Live()
    {
      AmountOut(amountIn, In(side), Out(side))
    }

    /** The pool takes a trade when the amounts are positive and, for a swap,
        when it has liquidity and the quote is positive. */
    predicate Accepts(t: Trade) {
      match t
      case Swap(side, x) => x > 0 && Live() && QuoteFor(side, x) > 0
      case Seed(x, y) => x > 0 && y > 0
    }

    function Apply(t: Trade): Pair
      requires Accepts(t)
    {
      match t
      case Swap(side, x) =>
        var y := QuoteFor(side, x);
        QuoteIsLargest(x, In(side), Out(side), y);
        if side == SellA then Pair(a + x, b - y) else Pair(a - y, b + x)
      case Seed(x, y) => Pair(a + x, b + y)
    }

    /** A rejected trade reverts and moves nothing. */
    function Step(t: Trade): Pair {
      if Accepts(t) then Apply(t) else this
    }

    function Run(ts: seq<Trade>): Pair
      decreases |ts|
    {
      if ts == [] then this else Step(ts[0]).Run(ts[1..])
    }

    /** Some trade of the run is accepted when its turn comes. */
    predicate Trades(ts: seq<Trade>)
      decreases |ts|
    {
      ts != [] && (Accepts(ts[0]) || Step(ts[0]).Trades(ts[1..]))
    }

    /** What the trader receives in all for swapping the amounts one by one. */
    function Proceeds(side: Side, xs: seq<nat>): nat
      decreases |xs|
    {
      if xs == [] then 0
      else
        var t := Swap(side, xs[0]);
        (if Accepts(t) then QuoteFor(side, xs[0]) else 0) + Step(t).Proceeds(side, xs[1..])
    }
  }

  predicate NoneLarger(p: Pair, q: Pair) {
    p.a <= q.a && p.b <= q.b
  }

  /** Every accepted trade strictly grows the product and leaves both reserves
      positive. */
  lemma TradeGrowsProduct(p: Pair, t: Trade)
    requires p.Accepts(t)
    ensures p.Apply(t).Live()
    ensures p.Product() < p.Apply(t).Product()
  {
    var q := p.Apply(t);
    match t {
      case Seed(x, y) =>
        SeedingGrows(p.a, p.b, x, y);
      case Swap(side, x) =>
        var y := p.QuoteFor(side, x);
        QuoteIsLargest(x, p.In(side), p.Out(side), y);
        GrowsStrictly(p.In(side), p.Out(side), x, y);
    }
  }

  lemma SeedingGrows(a: nat, b: nat, x: nat, y: nat)
    requires x > 0 && y > 0
    ensures a * b < (a + x) * (b + y)
  {
    assert (a + x) * (b + y) == a * b + a * y + x * b + x * y;
    assert x * y > 0;
  }

  lemma GrowsStrictly(r: nat, s: nat, x: nat, y: nat)
    requires x > 0 && y < s && KeepsProduct(y, x, r, s)
    ensures r * s < (r + x) * (s - y)
  {
    assert 1000 * ((r + x) * (s - y)) == (1000 * r + 997 * x) * (s - y) + 3 * (x * (s - y));
    assert x * (s - y) > 0;
    assert 1000 * (r * s) == 1000 * r * s;
  }

  /** A pool is either empty on both sides or live, before and after any run. */
  predicate Balanced(p: Pair) {
    p.a == 0 <==> p.b == 0
  }

  lemma {:induction false} RunGrowsProduct(p: Pair, ts: seq<Trade>)
    ensures p.Product() <= p.Run(ts).Product()
    ensures p.Trades(ts) ==> p.Product() < p.Run(ts).Product()
    ensures Balanced(p) ==> Balanced(p.Run(ts))
    ensures !p.Trades(ts) ==> p.Run(ts) == p
    decreases |ts|
  {
    if ts != [] {
      if p.Accepts(ts[0]) {
        TradeGrowsProduct(p, ts[0]);
      }
      RunGrowsProduct(p.Step(ts[0]), ts[1..]);
    }
  }

  lemma NoneLargerProduct(p: Pair, q: Pair)
    requires NoneLarger(p, q)
    ensures p.Product() <= q.Product()
  {
    MulMono(p.a, q.a, p.b);
    MulMono(p.b, q.b, q.a);
  }

  /** No run in which the pool accepts anything leaves both reserves no larger. */
  lemma NoRunDrainsAPool(p: Pair, ts: seq<Trade>)
    requires p.Trades(ts)
    ensures !NoneLarger(p.Run(ts), p)
  {
    RunGrowsProduct(p, ts);
    if NoneLarger(p.Run(ts), p) {
      NoneLargerProduct(p.Run(ts), p);
    }
  }

  function Other(side: Side): Side {
    if side == SellA then SellB else SellA
  }

  /** Swapping forth and back returns strictly less than was put in, whatever
      the pool's reserves. */
  lemma RoundTripLoses(p: Pair, side: Side, x: nat)
    requires p.Accepts(Swap(side, x))
    requires var y := p.QuoteFor(side, x);
             p.Apply(Swap(side, x)).Accepts(Swap(Other(side), y))
    ensures var y := p.QuoteFor(side, x);
            p.Apply(Swap(side, x)).QuoteFor(Other(side), y) < x
  {
    var y := p.QuoteFor(side, x);
    var mid := p.Apply(Swap(side, x));
    var end := mid.Apply(Swap(Other(side), y));
    TradeGrowsProduct(p, Swap(side, x));
    TradeGrowsProduct(mid, Swap(Other(side), y));
    if mid.QuoteFor(Other(side), y) >= x {
      NoneLargerProduct(end, p);
    }
  }

  function Total(xs: seq<nat>): nat {
    if xs == [] then 0 else xs[0] + Total(xs[1..])
  }

  /** Splitting an input into any list of swaps never pays more than swapping
      it at once. */
  lemma {:induction false} SplittingNeverPays(p: Pair, side: Side, xs: seq<nat>)
    requires p.Live() && Total(xs) > 0
    ensures p.Proceeds(side, xs) <= p.QuoteFor(side, Total(xs))
    decreases |xs|
  {
    var x, rest := xs[0], Total(xs[1..]);
    var t := Swap(side, x);
    if rest == 0 {
      NothingForNothing(p.Step(t), side, xs[1..]);
    } else if p.Accepts(t) {
      TradeGrowsProduct(p, t);
      SplittingNeverPays(p.Apply(t), side, xs[1..]);
      SplitPair(x, rest, p.In(side), p.Out(side));
    } else {
      SplittingNeverPays(p, side, xs[1..]);
      QuoteGrowsWithInput(rest, x + rest, p.In(side), p.Out(side));
    }
  }

  lemma {:induction false} NothingForNothing(p: Pair, side: Side, xs: seq<nat>)
    requires Total(xs) == 0
    ensures p.Proceeds(side, xs) == 0
    decreases |xs|
  {
    if xs != [] {
      NothingForNothing(p, side, xs[1..]);
    }
  }

  function InTurn(side: Side, xs: seq<nat>): seq<Trade> {
    if xs == [] then [] else [Swap(side, xs[0])] + InTurn(side, xs[1..])
  }

  /** All of these swaps are accepted when their turn comes. */
  predicate AllAccepted(p: Pair, ts: seq<Trade>)
    decreases |ts|
  {
    ts == [] || (p.Accepts(ts[0]) && AllAccepted(p.Step(ts[0]), ts[1..]))
  }

  /** The proceeds are what the pool has less of after the swaps, and when all are
      accepted their total is what it has more of. */
  lemma {:induction false} ProceedsAreTakenOut(p: Pair, side: Side, xs: seq<nat>)
    ensures p.Proceeds(side, xs) == p.Out(side) - p.Run(InTurn(side, xs)).Out(side)
    ensures AllAccepted(p, InTurn(side, xs)) ==> p.Run(InTurn(side, xs)).In(side) == p.In(side) + Total(xs)
    decreases |xs|
  {
    if xs != [] {
      assert InTurn(side, xs)[1..] == InTurn(side, xs[1..]);
      ProceedsAreTakenOut(p.Step(Swap(side, xs[0])), side, xs[1..]);
    }
  }

  predicate AllSell(side: Side, ts: seq<Trade>) {
    forall i :: 0 <= i < |ts| ==> ts[i].Swap? && ts[i].side == side
  }

  /** Swaps in one direction push both reserves the same way, at most. */
  lemma {:induction false} SwapsPushReserves(p: Pair, side: Side, ts: seq<Trade>)
    requires p.Live() && AllSell(side, ts)
    ensures p.Run(ts).Live()
    ensures p.In(side) <= p.Run(ts).In(side) && p.Run(ts).Out(side) <= p.Out(side)
    decreases |ts|
  {
    if ts != [] {
      if p.Accepts(ts[0]) {
        TradeGrowsProduct(p, ts[0]);
      }
      SwapsPushReserves(p.Step(ts[0]), side, ts[1..]);
    }
  }

  /** After other traders sell the same token, a trade is quoted at most what
      it was quoted before; after they sell the other token, at least that, so
      a minimum at or below the old quote is still met. */
  lemma QuoteStability(p: Pair, side: Side, x: nat, same: seq<Trade>, opposite: seq<Trade>)
    requires p.Live() && x > 0
    requires AllSell(side, same) && AllSell(Other(side), opposite)
    ensures p.Run(same).Live() && p.Run(same).QuoteFor(side, x) <= p.QuoteFor(side, x)
    ensures p.Run(opposite).Live() && p.QuoteFor(side, x) <= p.Run(opposite).QuoteFor(side, x)
  {
    SwapsPushReserves(p, side, same);
    var q := p.Run(same);
    QuoteFallsAgainstTrader(x, p.In(side), p.Out(side), q.In(side), q.Out(side));
    SwapsPushReserves(p, Other(side), opposite);
    var r := p.Run(opposite);
    QuoteFallsAgainstTrader(x, r.In(side), r.Out(side), p.In(side), p.Out(side));
  }
}
