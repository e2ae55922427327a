/** Any number of pools over the same pair of tokens. When they all start at
    one price, no interleaving of trades across them yields something for
    nothing: an integer form of the Cauchy-Schwarz inequality. */
module Market {
  import opened Quote
  import opened Reserves

  /** What trading can do to one pool. */
  ghost predicate Grew(p: Pair, q: Pair) {
    q == p || p.Product() < q.Product()
  }

  ghost predicate AllGrew(ps: seq<Pair>, qs: seq<Pair>) {
    |ps| == |qs| && forall i :: 0 <= i < |ps| ==> Grew(ps[i], qs[i])
  }

  ghost predicate SamePrice(p: Pair, q: Pair) {
    p.a * q.b == q.a * p.b
  }

  ghost predicate OnePrice(ps: seq<Pair>) {
    && (forall i :: 0 <= i < |ps| ==> ps[i].Live())
    && (forall i, j :: 0 <= i < |ps| && 0 <= j < |ps| ==> SamePrice(ps[i], ps[j]))
  }

  function Plus(p: Pair, q: Pair): Pair {
    Pair(p.a + q.a, p.b + q.b)
  }

  function Sum(ps: seq<Pair>): Pair {
    if ps == [] then Pair(0, 0)
    else Plus(Sum(ps[..|ps| - 1]), ps[|ps| - 1])
  }

  function Cross(p: Pair, q: Pair): nat {
    p.a * q.b + q.a * p.b
  }

  lemma SquareStrict(x: nat, y: nat)
    requires x < y
    ensures x * x < y * y
  {
    assert y * y == x * x + (y - x) * (x + y);
    assert (y - x) * (x + y) > 0;
  }

  /** Arithmetic and geometric mean: uv at least w squared gives u + v at least 2w. */
  lemma MeansInequality(u: nat, v: nat, w: nat)
    requires w * w <= u * v
    ensures 2 * w <= u + v
  {
    assert (u + v) * (u + v) == (u - v) * (u - v) + 4 * (u * v);
    assert (u - v) * (u - v) >= 0;
    assert (2 * w) * (2 * w) == 4 * (w * w);
    if u + v < 2 * w {
      SquareStrict(u + v, 2 * w);
    }
  }

  lemma GrewProduct(p: Pair, q: Pair)
    requires Grew(p, q)
    ensures p.Product() <= q.Product()
  {
  }

  /** Two pools at one price: their cross term only grows. */
  lemma CrossGrows(p: Pair, q: Pair, p': Pair, q': Pair)
    requires SamePrice(p, q) && Grew(p, p') && Grew(q, q')
    ensures Cross(p, q) <= Cross(p', q')
  {
    var w := p.a * q.b;
    GrewProduct(p, p');
    GrewProduct(q, q');
    assert w * w == p.Product() * q.Product() by { Regroup(p.a, q.b, q.a, p.b); }
    MulMono(p.Product(), p'.Product(), q.Product());
    MulMono(q.Product(), q'.Product(), p'.Product());
    Regroup(p'.a, q'.b, q'.a, p'.b);
    MeansInequality(p'.a * q'.b, q'.a * p'.b, w);
  }

  lemma Regroup(a: nat, b: nat, c: nat, d: nat)
    ensures (a * b) * (c * d) == (a * d) * (c * b)
  {
    assert (a * b) * (c * d) == a * (b * (c * d));
    assert (a * d) * (c * b) == a * (d * (c * b));
    assert b * (c * d) == d * (c * b);
  }

  lemma {:induction false} CrossSumGrows(p: Pair, p': Pair, qs: seq<Pair>, qs': seq<Pair>)
    requires AllGrew(qs, qs') && Grew(p, p')
    requires forall i :: 0 <= i < |qs| ==> SamePrice(p, qs[i])
    ensures Cross(p, Sum(qs)) <= Cross(p', Sum(qs'))
  {
    if qs != [] {
      var n := |qs| - 1;
      CrossSumGrows(p, p', qs[..n], qs'[..n]);
      CrossGrows(p, qs[n], p', qs'[n]);
      CrossSplits(p, Sum(qs[..n]), qs[n]);
      CrossSplits(p', Sum(qs'[..n]), qs'[n]);
    }
  }

  lemma CrossSplits(p: Pair, q: Pair, r: Pair)
    ensures Cross(p, Plus(q, r)) == Cross(p, q) + Cross(p, r)
  {
  }

  lemma ProductSplits(p: Pair, q: Pair)
    ensures Plus(p, q).Product() == p.Product() + q.Product() + Cross(q, p)
  {
    assert (p.a + q.a) * (p.b + q.b) == p.a * p.b + p.a * q.b + q.a * p.b + q.a * q.b;
  }

  /** The product of the combined reserves never falls, and rises as soon as
      one pool has changed. */
  lemma {:induction false} CombinedProductGrows(ps: seq<Pair>, qs: seq<Pair>)
    requires OnePrice(ps) && AllGrew(ps, qs)
    ensures Sum(ps).Product() <= Sum(qs).Product()
    ensures ps != qs ==> Sum(ps).Product() < Sum(qs).Product()
  {
    if ps != [] {
      var n := |ps| - 1;
      CombinedProductGrows(ps[..n], qs[..n]);
      CrossSumGrows(ps[n], qs[n], ps[..n], qs[..n]);
      ProductSplits(Sum(ps[..n]), ps[n]);
      ProductSplits(Sum(qs[..n]), qs[n]);
      GrewProduct(ps[n], qs[n]);
      assert ps == ps[..n] + [ps[n]] && qs == qs[..n] + [qs[n]];
    }
  }

  /** From one price, no change of the pools leaves both combined reserves no
      larger than at the start. */
  lemma NothingForNothingAcrossPools(ps: seq<Pair>, qs: seq<Pair>)
    requires OnePrice(ps) && AllGrew(ps, qs) && ps != qs
    ensures !NoneLarger(Sum(qs), Sum(ps))
  {
    CombinedProductGrows(ps, qs);
    if NoneLarger(Sum(qs), Sum(ps)) {
      NoneLargerProduct(Sum(qs), Sum(ps));
    }
  }
}
