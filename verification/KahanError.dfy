/** Reals rounded with relative error at most u per operation (IEEE 754-2019, section 5.4.1). */
module Rounding {
  function Abs(x: real): real { if x < 0.0 then -x else x }

  predicate Within(x: real, bound: real) { -bound <= x <= bound }

  /** `fl` rounds every real with relative error at most u. */
  ghost predicate Rounds(fl: real -> real, u: real) {
    u >= 0.0 && forall x :: RelativeError(fl, u, x)
  }

  ghost predicate RelativeError(fl: real -> real, u: real, x: real) { Within(fl(x) - x, u * Abs(x)) }

  // "Times u" as a function mu known only through three laws.  Proofs about error
  // bounds are then free of products; `Times` brings the factor u back at the end.

  ghost predicate RoundsAt(fl: real -> real, mu: real -> real, x: real) { Within(fl(x) - x, mu(Abs(x))) }

  ghost predicate LinearAt(mu: real -> real, x: real, k: real, y: real) { mu(x + k * y) == mu(x) + k * mu(y) }

  ghost predicate MonotoneAt(mu: real -> real, x: real, y: real) { 0.0 <= x <= y ==> 0.0 <= mu(x) <= mu(y) }

  ghost predicate Unit(fl: real -> real, mu: real -> real) {
    && (forall x :: RoundsAt(fl, mu, x))
    && (forall x, k, y :: LinearAt(mu, x, k, y))
    && (forall x, y :: MonotoneAt(mu, x, y))
  }

  function Times(u: real): real -> real { x => u * x }

  lemma TimesIsUnit(fl: real -> real, u: real)
    requires Rounds(fl, u)
    ensures Unit(fl, Times(u))
  {
    forall x ensures RoundsAt(fl, Times(u), x) { assert RelativeError(fl, u, x); }
    forall x, k, y ensures LinearAt(Times(u), x, k, y) { Distribute(u, x, k, y); }
    forall x, y ensures MonotoneAt(Times(u), x, y) {
      if 0.0 <= x <= y { Scale(x, y, u); }
    }
  }

  lemma Scale(x: real, y: real, f: real)
    requires x <= y && f >= 0.0
    ensures f * x <= f * y
  {
  }

  lemma Distribute(u: real, x: real, k: real, y: real)
    ensures u * (x + k * y) == u * x + k * (u * y)
  {
  }

  /** Rounding a number known to be at most a + k * b in magnitude. */
  lemma RoundedWithin(fl: real -> real, mu: real -> real, x: real, a: real, k: real, b: real)
    requires Unit(fl, mu) && Within(x, a + k * b)
    ensures Within(fl(x) - x, mu(a) + k * mu(b))
  {
    assert RoundsAt(fl, mu, x) && LinearAt(mu, a, k, b) && MonotoneAt(mu, Abs(x), a + k * b);
  }
}

/** Exact sums of reals, split into pieces. */
module ExactSums {
  import opened Arithmetic
  import opened Chunking
  import opened Rounding

  function AbsSum(xs: seq<real>): (r: real)
    ensures r >= 0.0 && Within(Sum(xs), r)
  {
    if xs == [] then 0.0 else AbsSum(xs[..|xs| - 1]) + Abs(xs[|xs| - 1])
  }

  function Magnitudes(xs: seq<real>): seq<real> { seq(|xs|, i requires 0 <= i < |xs| => Abs(xs[i])) }

  lemma {:induction false} AbsSumIsSum(xs: seq<real>)
    ensures AbsSum(xs) == Sum(Magnitudes(xs))
  {
    if xs != [] {
      AbsSumIsSum(xs[..|xs| - 1]);
      assert Magnitudes(xs)[..|xs| - 1] == Magnitudes(xs[..|xs| - 1]);
    }
  }

  lemma {:induction false} SumConcat(a: seq<real>, b: seq<real>)
    ensures Sum(a + b) == Sum(a) + Sum(b)
  {
    if b == [] {
      assert a + b == a;
    } else {
      assert (a + b)[..|a + b| - 1] == a + b[..|b| - 1];
      SumConcat(a, b[..|b| - 1]);
    }
  }

  lemma {:induction false} SumOfChunkSums(xs: seq<real>, len: nat, k: nat, sums: seq<real>)
    requires |sums| == k && forall i :: 0 <= i < k ==> sums[i] == Sum(Chunk(xs, len, i))
    ensures Sum(sums) == Sum(xs[..Cut(|xs|, len, k)])
  {
    if k > 0 {
      SumOfChunkSums(xs, len, k - 1, sums[..k - 1]);
      SumConcat(xs[..Cut(|xs|, len, k - 1)], Chunk(xs, len, k - 1));
      assert xs[..Cut(|xs|, len, k - 1)] + Chunk(xs, len, k - 1) == xs[..Cut(|xs|, len, k)];
    }
  }

  /** Chunk sums add up to the whole sum once the chunks reach the end. */
  lemma ChunkTotal(xs: seq<real>, len: nat, sums: seq<real>)
    requires Cut(|xs|, len, |sums|) == |xs|
    requires forall i :: 0 <= i < |sums| ==> sums[i] == Sum(Chunk(xs, len, i))
    ensures Sum(sums) == Sum(xs)
  {
    SumOfChunkSums(xs, len, |sums|, sums);
    assert xs[..|xs|] == xs;
  }
}

/** Rounding-error bound for Kahan summation. */
module KahanError {
  import opened Arithmetic
  import opened ExactSums
  import opened Accumulators
  import opened Rounding

  ghost predicate SmallAt(mu: real -> real, x: real) { x >= 0.0 ==> 14.0 * mu(x) <= x }

  ghost predicate SmallUnit(fl: real -> real, mu: real -> real) {
    Unit(fl, mu) && forall x :: SmallAt(mu, x)
  }

  /** After terms of exact sum S and absolute sum B: `sum - c` tracks S with error
      2uB to first order, c is small, and `sum` itself is off by at most 3uB.
      The second-order error is m. */
  ghost predicate Tracks(mu: real -> real, m: real, S: real, B: real, acc: Acc<real>) {
    && acc.KahanAcc?
    && Within(acc.sum - acc.c - S, 2.0 * mu(B) + m)
    && Within(acc.c, 4.0 * mu(B))
    && Within(acc.sum - S, 3.0 * mu(B) + m)
  }

  /** Magnitudes of one step: a term of size a on top of a total of size B, where
      ub = mu(B), ua = mu(a), ub2 = mu(ub), p = mu(B + a), q = mu(p), uq = mu(q). */
  datatype Sizes = Sizes(a: real, B: real, ub: real, ua: real, ub2: real, p: real, q: real, uq: real, m: real) {
    predicate Ok() {
      && a >= 0.0 && B >= 0.0 && ub >= 0.0 && ua >= 0.0 && p == ub + ua
      && 0.0 <= ub2 <= q && 14.0 * ub2 <= ub
      && q >= 0.0 && 14.0 * q <= p && 14.0 * uq <= q && 0.0 <= m <= ub
    }
  }

  lemma SizesOf(fl: real -> real, mu: real -> real, B: real, a: real, m: real) returns (z: Sizes)
    requires SmallUnit(fl, mu) && a >= 0.0 && B >= 0.0 && 0.0 <= m <= mu(B)
    ensures z.Ok() && z == Sizes(a, B, mu(B), mu(a), mu(z.ub), mu(B + a), mu(z.p), mu(z.q), m)
  {
    var p := mu(B + a);
    z := Sizes(a, B, mu(B), mu(a), mu(mu(B)), p, mu(p), mu(mu(p)), m);
    assert LinearAt(mu, B, 1.0, a);
    assert MonotoneAt(mu, 0.0, B) && MonotoneAt(mu, 0.0, a) && MonotoneAt(mu, 0.0, mu(B));
    assert MonotoneAt(mu, mu(B), p) && MonotoneAt(mu, 0.0, mu(p));
    assert SmallAt(mu, mu(B)) && SmallAt(mu, p) && SmallAt(mu, mu(p));
  }

  /** The values of one `add`: y, t, d = t - sum and the new c, each the rounding of a difference or sum. */
  lemma FirstRounding(fl: real -> real, mu: real -> real, z: Sizes, x: real, c: real, y: real)
    requires SmallUnit(fl, mu) && z.ua == mu(z.a) && z.ub2 == mu(z.ub)
    requires Within(x, z.a) && Within(c, 4.0 * z.ub) && y == fl(x - c)
    ensures Within(y - (x - c), z.ua + 4.0 * z.ub2)
  {
    RoundedWithin(fl, mu, x - c, z.a, 4.0, z.ub);
  }

  lemma SumSize(z: Sizes, S: real, x: real, s: real, c: real, y: real)
    requires z.Ok() && Within(S, z.B) && Within(x, z.a) && Within(s - c - S, 2.0 * z.ub + z.m)
    requires Within(y - (x - c), z.ua + 4.0 * z.ub2)
    ensures Within(s + y, z.B + z.a + 4.0 * z.p)
  {
  }

  lemma SecondRounding(fl: real -> real, mu: real -> real, z: Sizes, v: real, t: real)
    requires SmallUnit(fl, mu) && z.p == mu(z.B + z.a) && z.q == mu(z.p)
    requires Within(v, z.B + z.a + 4.0 * z.p) && t == fl(v)
    ensures Within(t - v, z.p + 4.0 * z.q)
  {
    RoundedWithin(fl, mu, v, z.B + z.a, 4.0, z.p);
  }

  lemma IncreaseSize(z: Sizes, x: real, s: real, c: real, y: real, t: real)
    requires z.Ok() && Within(x, z.a) && Within(c, 4.0 * z.ub)
    requires Within(y - (x - c), z.ua + 4.0 * z.ub2) && Within(t - (s + y), z.p + 4.0 * z.q)
    ensures Within(t - s, z.a + 7.0 * z.p)
  {
  }

  lemma ThirdRounding(fl: real -> real, mu: real -> real, z: Sizes, v: real, d: real)
    requires SmallUnit(fl, mu) && z.ua == mu(z.a) && z.q == mu(z.p)
    requires Within(v, z.a + 7.0 * z.p) && d == fl(v)
    ensures Within(d - v, z.ua + 7.0 * z.q)
  {
    RoundedWithin(fl, mu, v, z.a, 7.0, z.p);
  }

  lemma FourthRounding(fl: real -> real, mu: real -> real, z: Sizes, e: real, v: real, c: real)
    requires SmallUnit(fl, mu) && z.Ok() && z.q == mu(z.p) && z.uq == mu(z.q)
    requires Within(e, z.p + 4.0 * z.q) && Within(v - e, z.ua + 7.0 * z.q) && c == fl(v)
    ensures Within(c - v, 2.0 * z.q + 11.0 * z.uq)
  {
    RoundedWithin(fl, mu, v, 2.0 * z.p, 11.0, z.q);
    assert LinearAt(mu, z.p, 1.0, z.p);
  }

  lemma StepBounds(z: Sizes, S: real, x: real, s: real, c: real, y: real, t: real, d: real, c': real)
    requires z.Ok() && Within(s - c - S, 2.0 * z.ub + z.m)
    requires Within(y - (x - c), z.ua + 4.0 * z.ub2) && Within(t - (s + y), z.p + 4.0 * z.q)
    requires Within(d - (t - s), z.ua + 7.0 * z.q) && Within(c' - (d - y), 2.0 * z.q + 11.0 * z.uq)
    ensures Within(t - c' - (S + x), 2.0 * z.p + (z.m + 14.0 * z.q))
    ensures Within(c', 4.0 * z.p)
    ensures Within(t - (S + x), 3.0 * z.p + (z.m + 14.0 * z.q))
  {
  }

  lemma AddUnfolds(fl: real -> real, acc: Acc<real>, x: real)
    requires acc.KahanAcc?
    ensures var y := fl(x - acc.c);
      var t := fl(acc.sum + y);
      Add(Rounded(fl), acc, x) == KahanAcc(t, fl(fl(t - acc.sum) - y))
  {
  }

  /** One `add` keeps the bounds and costs a second-order error of 14 u^2 times the new total. */
  lemma PushTracks(fl: real -> real, mu: real -> real, m: real, S: real, B: real, acc: Acc<real>, x: real,
                   m': real, S': real, B': real, acc': Acc<real>)
    requires SmallUnit(fl, mu) && Within(S, B) && 0.0 <= m <= mu(B) && Tracks(mu, m, S, B, acc)
    requires m' == m + 14.0 * mu(mu(B')) && S' == S + x && B' == B + Abs(x) && acc' == Add(Rounded(fl), acc, x)
    ensures Tracks(mu, m', S', B', acc')
  {
    var z := SizesOf(fl, mu, B, Abs(x), m);
    var y := fl(x - acc.c);
    var t := fl(acc.sum + y);
    var d := fl(t - acc.sum);
    AddUnfolds(fl, acc, x);
    AddBounds(fl, mu, z, S, x, acc.sum, acc.c, y, t, d, fl(d - y), m', S', B');
  }

  lemma AddBounds(fl: real -> real, mu: real -> real, z: Sizes, S: real, x: real,
                  s: real, c: real, y: real, t: real, d: real, c': real, m': real, S': real, B': real)
    requires SmallUnit(fl, mu) && z == Sizes(z.a, z.B, mu(z.B), mu(z.a), mu(z.ub), mu(z.B + z.a), mu(z.p), mu(z.q), z.m)
    requires z.Ok() && Within(S, z.B) && Within(x, z.a) && Tracks(mu, z.m, S, z.B, KahanAcc(s, c))
    requires y == fl(x - c) && t == fl(s + y) && d == fl(t - s) && c' == fl(d - y)
    requires m' == z.m + 14.0 * z.q && S' == S + x && B' == z.B + z.a
    ensures Tracks(mu, m', S', B', KahanAcc(t, c'))
  {
    FirstHalf(fl, mu, z, S, x, s, c, y, t);
    SecondHalf(fl, mu, z, x, s, c, y, t, d, c');
    StepBounds(z, S, x, s, c, y, t, d, c');
  }

  lemma FirstHalf(fl: real -> real, mu: real -> real, z: Sizes, S: real, x: real, s: real, c: real, y: real, t: real)
    requires SmallUnit(fl, mu) && z.ua == mu(z.a) && z.ub2 == mu(z.ub) && z.p == mu(z.B + z.a) && z.q == mu(z.p)
    requires z.Ok() && Within(S, z.B) && Within(x, z.a)
    requires Within(s - c - S, 2.0 * z.ub + z.m) && Within(c, 4.0 * z.ub)
    requires y == fl(x - c) && t == fl(s + y)
    ensures Within(y - (x - c), z.ua + 4.0 * z.ub2) && Within(t - (s + y), z.p + 4.0 * z.q)
  {
    FirstRounding(fl, mu, z, x, c, y);
    SumSize(z, S, x, s, c, y);
    SecondRounding(fl, mu, z, s + y, t);
  }

  lemma SecondHalf(fl: real -> real, mu: real -> real, z: Sizes, x: real, s: real, c: real, y: real, t: real, d: real,
                   c': real)
    requires SmallUnit(fl, mu) && z.ua == mu(z.a) && z.q == mu(z.p) && z.uq == mu(z.q)
    requires z.Ok() && Within(x, z.a) && Within(c, 4.0 * z.ub)
    requires Within(y - (x - c), z.ua + 4.0 * z.ub2) && Within(t - (s + y), z.p + 4.0 * z.q)
    requires d == fl(t - s) && c' == fl(d - y)
    ensures Within(d - (t - s), z.ua + 7.0 * z.q) && Within(c' - (d - y), 2.0 * z.q + 11.0 * z.uq)
  {
    IncreaseSize(z, x, s, c, y, t);
    ThirdRounding(fl, mu, z, t - s, d);
    FourthRounding(fl, mu, z, t - (s + y), d - y, c');
  }

  /** The second-order error after all of `xs`: 14 u^2 times each running total of magnitudes. */
  function Second(mu: real -> real, xs: seq<real>): real {
    if xs == [] then 0.0 else Second(mu, xs[..|xs| - 1]) + 14.0 * mu(mu(AbsSum(xs)))
  }

  ghost predicate SecondIsSmall(mu: real -> real, xs: seq<real>) {
    0.0 <= Second(mu, xs) <= mu(AbsSum(xs)) && (xs != [] ==> SecondIsSmall(mu, xs[..|xs| - 1]))
  }

  lemma {:induction false} KahanTracks(fl: real -> real, mu: real -> real, xs: seq<real>)
    requires SmallUnit(fl, mu) && SecondIsSmall(mu, xs)
    ensures Tracks(mu, Second(mu, xs), Sum(xs), AbsSum(xs), AddAll(Rounded(fl), Start(Rounded(fl), Deterministic), xs))
  {
    if xs == [] {
      assert MonotoneAt(mu, 0.0, 0.0);
    } else {
      var n := |xs| - 1;
      KahanTracks(fl, mu, xs[..n]);
      PushTracks(fl, mu, Second(mu, xs[..n]), Sum(xs[..n]), AbsSum(xs[..n]),
                 AddAll(Rounded(fl), Start(Rounded(fl), Deterministic), xs[..n]), xs[n],
                 Second(mu, xs), Sum(xs), AbsSum(xs), AddAll(Rounded(fl), Start(Rounded(fl), Deterministic), xs));
    }
  }

  /** 14 n v, written as a sum. */
  function Many(n: nat, v: real): real { if n == 0 then 0.0 else Many(n - 1, v) + 14.0 * v }

  ghost predicate SmallFor(mu: real -> real, n: nat, x: real) { x >= 0.0 ==> Many(n, mu(x)) <= x }

  lemma {:induction false} ManyGrows(n: nat, v: real, v': real)
    requires 0.0 <= v <= v'
    ensures 0.0 <= Many(n, v) <= Many(n, v')
  {
    if n > 0 { ManyGrows(n - 1, v, v'); }
  }

  lemma {:induction false} SecondBound(fl: real -> real, mu: real -> real, xs: seq<real>)
    requires SmallUnit(fl, mu) && forall x :: SmallFor(mu, |xs|, x)
    ensures 0.0 <= Second(mu, xs) <= Many(|xs|, mu(mu(AbsSum(xs))))
    ensures SecondIsSmall(mu, xs)
  {
    var B := AbsSum(xs);
    assert MonotoneAt(mu, 0.0, B) && MonotoneAt(mu, 0.0, mu(B));
    assert SmallFor(mu, |xs|, mu(B));
    if xs != [] {
      var n, B0 := |xs| - 1, AbsSum(xs[..|xs| - 1]);
      forall x ensures SmallFor(mu, n, x) {
        assert SmallFor(mu, n + 1, x) && MonotoneAt(mu, 0.0, x);
      }
      SecondBound(fl, mu, xs[..n]);
      assert MonotoneAt(mu, B0, B) && MonotoneAt(mu, mu(B0), mu(B));
      ManyGrows(n, mu(mu(B0)), mu(mu(B)));
    }
  }

  /** The bound in terms of mu alone. */
  lemma KahanWithin(fl: real -> real, mu: real -> real, xs: seq<real>, acc: Acc<real>, bound: real)
    requires SmallUnit(fl, mu) && forall x :: SmallFor(mu, |xs|, x)
    requires acc == AddAll(Rounded(fl), Start(Rounded(fl), Deterministic), xs)
    requires bound == 3.0 * mu(AbsSum(xs)) + Many(|xs|, mu(mu(AbsSum(xs))))
    ensures acc.KahanAcc? && Within(acc.sum - Sum(xs), bound)
  {
    SecondBound(fl, mu, xs);
    KahanTracks(fl, mu, xs);
  }

  // ---- "times u" with a small u -------------------------------------------

  lemma TimesIsSmall(fl: real -> real, u: real)
    requires Rounds(fl, u) && 14.0 * u <= 1.0
    ensures SmallUnit(fl, Times(u))
  {
    TimesIsUnit(fl, u);
    forall x ensures SmallAt(Times(u), x) {
      if x >= 0.0 { AtMostOnce(14.0, u, x); }
    }
  }

  lemma {:induction false} ManyIsProduct(n: nat, v: real)
    ensures Many(n, v) == 14.0 * n as real * v
  {
    if n > 0 {
      ManyIsProduct(n - 1, v);
      assert 14.0 * n as real == 14.0 * (n - 1) as real + 14.0;
      assert 14.0 * n as real * v == 14.0 * (n - 1) as real * v + 14.0 * v;
    }
  }

  lemma TimesSmallFor(u: real, n: nat, x: real)
    requires 14.0 * n as real * u <= 1.0
    ensures SmallFor(Times(u), n, x)
  {
    if x >= 0.0 {
      ManyIsProduct(n, Times(u)(x));
      AtMostOnce(14.0 * n as real, u, x);
    }
  }

  lemma AtMostOnce(k: real, u: real, x: real)
    requires k * u <= 1.0 && x >= 0.0
    ensures k * (u * x) <= x
  {
    Scale(k * u, 1.0, x);
    assert x * (k * u) == k * (u * x);
  }

  lemma OneTermIsSmall(u: real, n: nat)
    requires 0.0 <= u && 14.0 * n as real * u <= 1.0 && n > 0
    ensures 14.0 * u <= 1.0
  {
    assert 14.0 * n as real * u == 14.0 * (n - 1) as real * u + 14.0 * u;
  }

  function Bound(u: real, n: nat, B: real): real { (3.0 * u + 14.0 * n as real * (u * u)) * B }

  lemma BoundInU(u: real, n: nat, B: real)
    ensures 3.0 * Times(u)(B) + Many(n, Times(u)(Times(u)(B))) == Bound(u, n, B)
  {
    ManyIsProduct(n, u * (u * B));
    Collect(u, 14.0 * n as real, B);
  }

  lemma Collect(u: real, k: real, B: real)
    ensures 3.0 * (u * B) + k * (u * (u * B)) == (3.0 * u + k * (u * u)) * B
  {
    assert k * (u * (u * B)) == (k * (u * u)) * B;
    assert 3.0 * (u * B) == (3.0 * u) * B;
  }

  lemma TimesFits(fl: real -> real, u: real, n: nat)
    requires Rounds(fl, u) && 14.0 * n as real * u <= 1.0 && n > 0
    ensures SmallUnit(fl, Times(u)) && forall x :: SmallFor(Times(u), n, x)
  {
    OneTermIsSmall(u, n);
    TimesIsSmall(fl, u);
    forall x ensures SmallFor(Times(u), n, x) { TimesSmallFor(u, n, x); }
  }

  /** Kahan summation of n terms, while 14 * n * u <= 1: the error is at most
      (3u + 14 n u^2) times the sum of magnitudes.  The first-order part does not grow with n. */
  lemma KahanErrorBound(fl: real -> real, u: real, xs: seq<real>, acc: Acc<real>)
    requires Rounds(fl, u) && 14.0 * |xs| as real * u <= 1.0
    requires acc == AddAll(Rounded(fl), Start(Rounded(fl), Deterministic), xs)
    ensures acc.KahanAcc? && Within(acc.sum - Sum(xs), Bound(u, |xs|, AbsSum(xs)))
  {
    if xs == [] {
      assert Bound(u, 0, 0.0) == 0.0;
    } else {
      TimesFits(fl, u, |xs|);
      BoundInU(u, |xs|, AbsSum(xs));
      KahanWithin(fl, Times(u), xs, acc, Bound(u, |xs|, AbsSum(xs)));
    }
  }
}
