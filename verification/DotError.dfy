/** Rounding-error bound of the local dot product in Deterministic mode: products rounded once each,
    then summed with compensation. */
module DotError {
  import opened Arithmetic
  import opened Accumulators
  import opened DotEngine
  import opened ExactSums
  import opened KahanError
  import opened Rounding

  /** Rounding every term once. */
  lemma {:induction false} TermErrors(fl: real -> real, mu: real -> real, ws: seq<real>, xs: seq<real>)
    requires Unit(fl, mu) && |xs| == |ws| && forall i :: 0 <= i < |ws| ==> xs[i] == fl(ws[i])
    ensures Within(Sum(xs) - Sum(ws), mu(AbsSum(ws))) && AbsSum(xs) <= AbsSum(ws) + mu(AbsSum(ws))
  {
    if ws == [] {
      assert MonotoneAt(mu, 0.0, 0.0);
    } else {
      var n := |ws| - 1;
      TermErrors(fl, mu, ws[..n], xs[..n]);
      assert RoundsAt(fl, mu, ws[n]) && LinearAt(mu, AbsSum(ws[..n]), 1.0, Abs(ws[n]));
    }
  }

  lemma BoundGrows(u: real, n: nat, B: real, B': real)
    requires u >= 0.0 && B <= B'
    ensures Bound(u, n, B) <= Bound(u, n, B')
  {
    var k := 14.0 * n as real;
    assert u * u >= 0.0 by { Scale(0.0, u, u); }
    assert k * (u * u) >= 0.0 by { Scale(0.0, u * u, k); }
    Scale(B, B', 3.0 * u + k * (u * u));
  }

  ghost predicate RoundedFrom(fl: real -> real, ws: seq<real>, xs: seq<real>) {
    |xs| == |ws| && forall i :: 0 <= i < |ws| ==> xs[i] == fl(ws[i])
  }

  lemma RoundedTerms(fl: real -> real, u: real, ws: seq<real>, xs: seq<real>, B: real, e: real)
    requires Rounds(fl, u) && RoundedFrom(fl, ws, xs) && B == AbsSum(ws) && e == Times(u)(B)
    ensures Within(Sum(xs) - Sum(ws), e) && AbsSum(xs) <= B + e
  {
    TimesIsUnit(fl, u);
    TermErrors(fl, Times(u), ws, xs);
  }

  lemma KahanAtMost(fl: real -> real, u: real, xs: seq<real>, size: real, b: real)
    requires Rounds(fl, u) && 14.0 * |xs| as real * u <= 1.0 && AbsSum(xs) <= size && b == Bound(u, |xs|, size)
    ensures Within(Reduce(Rounded(fl), Deterministic, xs) - Sum(xs), b)
  {
    KahanErrorBound(fl, u, xs, AddAll(Rounded(fl), Start(Rounded(fl), Deterministic), xs));
    BoundGrows(u, |xs|, AbsSum(xs), size);
  }

  lemma ProductsAreRounded(fl: real -> real, x: seq<real>, y: seq<real>)
    requires |x| == |y|
    ensures RoundedFrom(fl, Products(Reals(), x, y), Products(Rounded(fl), x, y))
  {
  }

  lemma KahanOfRounded(fl: real -> real, u: real, ws: seq<real>, xs: seq<real>, n: nat, B: real, e: real, b: real)
    requires Rounds(fl, u) && RoundedFrom(fl, ws, xs) && n == |xs| && 14.0 * n as real * u <= 1.0
    requires B == AbsSum(ws) && e == Times(u)(B) && b == Bound(u, n, B + e)
    ensures Within(Reduce(Rounded(fl), Deterministic, xs) - Sum(ws), e + b)
  {
    RoundedTerms(fl, u, ws, xs, B, e);
    KahanAtMost(fl, u, xs, B + e, b);
  }

  /** While 14 * n * u <= 1, the result is off by at most u * B for the products and Bound(u, n, B + u * B)
      for their sum, where B is the sum of the magnitudes of the exact products ws. */
  lemma KahanDotError(fl: real -> real, u: real, x: seq<real>, y: seq<real>, n: nat, ws: seq<real>, B: real, e: real,
                      b: real)
    requires Rounds(fl, u) && |x| == |y| == n && ws == Products(Reals(), x, y) && 14.0 * n as real * u <= 1.0
    requires B == AbsSum(ws) && e == Times(u)(B) && b == Bound(u, n, B + e)
    ensures Within(DotSlice(Rounded(fl), Deterministic, x, y) - Sum(ws), e + b)
  {
    ProductsAreRounded(fl, x, y);
    KahanOfRounded(fl, u, ws, Products(Rounded(fl), x, y), n, B, e, b);
  }
}
