/** The pool's pricing formula (`getAmountOut` of SandboxDex.sol) in unbounded
    integers, and what its floor division guarantees. */
module Quote {

  const FEE_NUMERATOR: nat := 997
  const FEE_DENOMINATOR: nat := 1000

  function Floor(n: nat, d: nat): nat
    requires d > 0
  {
    n / d
  }

  function AmountOut(amountIn: nat, reserveIn: nat, reserveOut: nat): nat
    requires amountIn > 0 && reserveIn > 0
  {
    var amountInWithFee := amountIn * FEE_NUMERATOR;
    Floor(amountInWithFee * reserveOut, reserveIn * FEE_DENOMINATOR + amountInWithFee)
  }

  /** Paying `amountOut` keeps the fee-adjusted product of the reserves. */
  ghost predicate KeepsProduct(amountOut: int, amountIn: nat, reserveIn: nat, reserveOut: nat) {
    (1000 * reserveIn + 997 * amountIn) * (reserveOut - amountOut) >= 1000 * reserveIn * reserveOut
  }

  lemma FloorGalois(n: nat, d: nat, q: int)
    requires d > 0
    ensures q <= Floor(n, d) <==> q * d <= n
  {
    var f := Floor(n, d);
    assert n == f * d + n % d;
    if q <= f {
      assert q * d <= f * d by { MulMono(q, f, d); }
    } else {
      assert (f + 1) * d <= q * d by { MulMono(f + 1, q, d); }
    }
  }

  lemma MulMono(a: int, b: int, c: nat)
    requires a <= b
    ensures a * c <= b * c
  {
  }

  /** The quote is the largest payment that keeps the fee-adjusted product, and
      it never empties the pool. */
  lemma QuoteIsLargest(amountIn: nat, reserveIn: nat, reserveOut: nat, y: int)
    requires amountIn > 0 && reserveIn > 0
    ensures y <= AmountOut(amountIn, reserveIn, reserveOut) <==> KeepsProduct(y, amountIn, reserveIn, reserveOut)
    ensures reserveOut > 0 ==> AmountOut(amountIn, reserveIn, reserveOut) < reserveOut
  {
    var fee := amountIn * 997;
    var d := reserveIn * 1000 + fee;
    FloorGalois(fee * reserveOut, d, y);
    assert d * (reserveOut - y) == 1000 * reserveIn * reserveOut + (fee * reserveOut - y * d);
    if reserveOut > 0 {
      FloorGalois(fee * reserveOut, d, reserveOut);
      assert reserveOut * d == reserveOut * (reserveIn * 1000) + fee * reserveOut;
      assert reserveOut * (reserveIn * 1000) > 0;
    }
  }

  lemma QuoteGrowsWithInput(x: nat, x': nat, reserveIn: nat, reserveOut: nat)
    requires 0 < x <= x' && reserveIn > 0
    ensures AmountOut(x, reserveIn, reserveOut) <= AmountOut(x', reserveIn, reserveOut)
  {
    var y := AmountOut(x, reserveIn, reserveOut);
    QuoteIsLargest(x, reserveIn, reserveOut, y);
    QuoteIsLargest(x', reserveIn, reserveOut, y);
    if reserveOut > 0 {
      MulMono(1000 * reserveIn + 997 * x, 1000 * reserveIn + 997 * x', reserveOut - y);
    }
  }

  /** A pool that holds more of the input or less of the output pays no more. */
  lemma QuoteFallsAgainstTrader(x: nat, reserveIn: nat, reserveOut: nat, reserveIn': nat, reserveOut': nat)
    requires x > 0 && 0 < reserveIn <= reserveIn' && reserveOut' <= reserveOut
    ensures AmountOut(x, reserveIn', reserveOut') <= AmountOut(x, reserveIn, reserveOut)
  {
    var fee := x * 997;
    var y := AmountOut(x, reserveIn', reserveOut');
    FloorGalois(fee * reserveOut', reserveIn' * 1000 + fee, y);
    FloorGalois(fee * reserveOut, reserveIn * 1000 + fee, y);
    MulMono(reserveOut', reserveOut, fee);
    MulMono(reserveIn * 1000 + fee, reserveIn' * 1000 + fee, y);
  }

  /** Two swaps in a row never pay more than one swap of both inputs. */
  lemma SplitPair(x1: nat, x2: nat, reserveIn: nat, reserveOut: nat)
    requires x1 > 0 && x2 > 0 && reserveIn > 0 && reserveOut > 0
    ensures var y1 := AmountOut(x1, reserveIn, reserveOut);
            y1 < reserveOut &&
            y1 + AmountOut(x2, reserveIn + x1, reserveOut - y1) <= AmountOut(x1 + x2, reserveIn, reserveOut)
  {
    var y1 := AmountOut(x1, reserveIn, reserveOut);
    QuoteIsLargest(x1, reserveIn, reserveOut, y1);
    var y2 := AmountOut(x2, reserveIn + x1, reserveOut - y1);
    QuoteIsLargest(x2, reserveIn + x1, reserveOut - y1, y2);
    QuoteIsLargest(x1 + x2, reserveIn, reserveOut, y1 + y2);
    Chain(1000 * reserveIn + 997 * x1, 1000 * (reserveIn + x1), 997 * x2, reserveOut - y1, reserveOut - y1 - y2);
  }

  /** The step behind SplitPair: a curve that is only better for the pool
      (`d <= e`) keeps its bound when both sides grow by `c`. */
  lemma Chain(d: nat, e: nat, c: nat, t: nat, u: nat)
    requires 0 < d <= e
    requires (e + c) * u >= e * t
    ensures (d + c) * u >= d * t
  {
    if t <= u {
      MulMono(t, u, d);
    } else {
      MulMono(d, e, t - u);
      assert e * (t - u) == e * t - e * u;
      assert d * (t - u) == d * t - d * u;
    }
  }
}
