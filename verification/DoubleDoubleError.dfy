/** What the double-double accumulator gains: the rounding error of every addition is kept in the low part,
    so that sums are computed as if in twice the precision and rounded once. */
module DoubleDoubleError {
  import opened Arithmetic
  import opened Accumulators
  import opened DotEngine
  import opened ExactSums
  import opened KahanError
  import opened Rounding

  // ---- one step in rounded arithmetic ---------------------------------------------------

  lemma StepUnfolds(fl: real -> real, acc: Acc<real>, x: real)
    requires acc.DDAcc?
    ensures var s := fl(acc.hi + x);
      var z := fl(s - acc.hi);
      var e := fl(fl(fl(acc.hi - fl(s - z)) + fl(x - z)) + acc.lo);
      var h := fl(s + e);
      Add(Rounded(fl), acc, x) == DDAcc(h, fl(e - fl(h - s)))
  {
  }

  /** By how much rounding changes v. */
  function Change(fl: real -> real, v: real): real { fl(v) - v }

  /** Where the four differences that recover the error of s = fl(hi + x) are exact, one step keeps hi + lo + x up
      to the roundings of the four later operations: of the recovered error, of its sum with lo, of the difference
      of the two high parts, and of the new low part. */
  lemma StepKeepsSum(fl: real -> real, hi: real, lo: real, x: real, s: real, r: real, e: real, h: real, d: real)
    requires s == fl(hi + x)
    requires fl(s - hi) == s - hi && fl(s - (s - hi)) == s - (s - hi)
    requires fl(hi - (s - (s - hi))) == hi - (s - (s - hi)) && fl(x - (s - hi)) == x - (s - hi)
    requires r == fl(hi + x - s) && e == fl(r + lo) && h == fl(s + e) && d == fl(h - s)
    ensures Add(Rounded(fl), DDAcc(hi, lo), x) == DDAcc(h, fl(e - d))
    ensures h + fl(e - d) ==
      hi + lo + x + Change(fl, hi + x - s) + Change(fl, r + lo) - Change(fl, h - s) + Change(fl, e - d)
  {
    assert hi - (s - (s - hi)) + (x - (s - hi)) == hi + x - s;
    StepUnfolds(fl, DDAcc(hi, lo), x);
  }

  // ---- the example of massive cancellation --------------------------------------------------

  const BIG: real := 10000000000000000.0

  /** A rounding that agrees with binary64 at the numbers of the example. */
  ghost predicate RoundsTheExample(fl: real -> real) {
    && fl(0.0) == 0.0 && fl(1.0) == 1.0 && fl(-1.0) == -1.0 && fl(BIG) == BIG && fl(-BIG) == -BIG
    && fl(BIG + 1.0) == BIG && fl(1.0 - BIG) == -BIG
  }

  lemma AddThree<F>(A: Arith<F>, acc: Acc<F>, x: F, y: F, z: F)
    ensures AddAll(A, acc, [x, y, z]) == Add(A, Add(A, Add(A, acc, x), y), z)
  {
    var one, two, three := [x], [x, y], [x, y, z];
    assert one[..0] == [] && two[..1] == one && three[..2] == two;
    assert AddAll(A, acc, one) == Add(A, acc, x) && AddAll(A, acc, two) == Add(A, Add(A, acc, x), y);
  }

  lemma AccurateSteps(fl: real -> real)
    requires RoundsTheExample(fl)
    ensures Add(Rounded(fl), DDAcc(0.0, 0.0), BIG) == DDAcc(BIG, 0.0)
    ensures Add(Rounded(fl), DDAcc(BIG, 0.0), 1.0) == DDAcc(BIG, 1.0)
    ensures Add(Rounded(fl), DDAcc(BIG, 1.0), -BIG) == DDAcc(1.0, 0.0)
  {
    StepUnfolds(fl, DDAcc(0.0, 0.0), BIG);
    StepUnfolds(fl, DDAcc(BIG, 0.0), 1.0);
    StepUnfolds(fl, DDAcc(BIG, 1.0), -BIG);
  }

  lemma DeterministicSteps(fl: real -> real)
    requires RoundsTheExample(fl)
    ensures Add(Rounded(fl), KahanAcc(0.0, 0.0), BIG) == KahanAcc(BIG, 0.0)
    ensures Add(Rounded(fl), KahanAcc(BIG, 0.0), 1.0) == KahanAcc(BIG, -1.0)
    ensures Add(Rounded(fl), KahanAcc(BIG, -1.0), -BIG).sum == 0.0
  {
    AddUnfolds(fl, KahanAcc(0.0, 0.0), BIG);
    AddUnfolds(fl, KahanAcc(BIG, 0.0), 1.0);
    AddUnfolds(fl, KahanAcc(BIG, -1.0), -BIG);
  }

  /** 1e16 + 1 - 1e16 is 1 in DeterministicAccurate mode and 0 in Deterministic mode. */
  lemma AccurateModeCancels(fl: real -> real)
    requires RoundsTheExample(fl)
    ensures Reduce(Rounded(fl), DeterministicAccurate, [BIG, 1.0, -BIG]) == 1.0
    ensures Reduce(Rounded(fl), Deterministic, [BIG, 1.0, -BIG]) == 0.0
  {
    AddThree(Rounded(fl), DDAcc(0.0, 0.0), BIG, 1.0, -BIG);
    AddThree(Rounded(fl), KahanAcc(0.0, 0.0), BIG, 1.0, -BIG);
    AccurateSteps(fl);
    DeterministicSteps(fl);
  }

  // ---- error-free additions -------------------------------------------------------------------

  /** A machine number of the rounding. */
  ghost predicate Machine(fl: real -> real, x: real) { fl(x) == x }

  /** The error of a + b is recovered exactly from the rounded sum. */
  ghost predicate RecoveredAt(fl: real -> real, a: real, b: real) {
    var s := fl(a + b);
    var z := fl(s - a);
    Machine(fl, a) && Machine(fl, b) ==> fl(fl(a - fl(s - z)) + fl(b - z)) == a + b - s
  }

  /** Rounding gives machine numbers, and the error of every sum of two of them is recovered: a theorem of binary
      floating-point arithmetic rounded to nearest (Knuth, The Art of Computer Programming, section 4.2.2). */
  ghost predicate ErrorFree(fl: real -> real) {
    (forall x :: Machine(fl, fl(x))) && forall a, b :: RecoveredAt(fl, a, b)
  }

  /** After terms of exact sum S and absolute sum B: the two parts together are off by at most m, which is of second
      order, and the low part is small. */
  ghost predicate Tracks(fl: real -> real, mu: real -> real, m: real, S: real, B: real, acc: Acc<real>) {
    && acc.DDAcc? && Machine(fl, acc.hi)
    && Within(acc.hi + acc.lo - S, m) && Within(acc.lo, 2.0 * mu(B))
  }

  lemma HighSize(z: Sizes, S: real, x: real, hi: real, lo: real)
    requires z.Ok() && Within(S, z.B) && Within(x, z.a) && Within(hi + lo - S, z.m) && Within(lo, 2.0 * z.ub)
    ensures Within(hi + x, z.B + z.a + 3.0 * z.p) && Within(hi + lo + x, z.B + z.a + z.p)
  {
  }

  lemma RecoveredSize(fl: real -> real, mu: real -> real, z: Sizes, hi: real, x: real, s: real)
    requires SmallUnit(fl, mu) && z.p == mu(z.B + z.a) && z.q == mu(z.p)
    requires Within(hi + x, z.B + z.a + 3.0 * z.p) && s == fl(hi + x)
    ensures Within(hi + x - s, z.p + 3.0 * z.q)
  {
    RoundedWithin(fl, mu, hi + x, z.B + z.a, 3.0, z.p);
  }

  /** e is the recovered error r with the low part added. */
  lemma CarrySize(fl: real -> real, mu: real -> real, z: Sizes, r: real, lo: real, e: real)
    requires SmallUnit(fl, mu) && z.Ok() && z.q == mu(z.p) && z.uq == mu(z.q)
    requires Within(r, z.p + 3.0 * z.q) && Within(lo, 2.0 * z.ub) && e == fl(r + lo)
    ensures Within(e - (r + lo), 3.0 * z.q + 3.0 * z.uq)
  {
    RoundedWithin(fl, mu, r + lo, 3.0 * z.p, 3.0, z.q);
    assert LinearAt(mu, z.p, 2.0, z.p);
  }

  lemma CarriedSize(z: Sizes, sum: real, v: real)
    requires z.Ok() && Within(sum, z.B + z.a + z.p) && Within(v - sum, 3.0 * z.q + 3.0 * z.uq)
    ensures Within(v, z.B + z.a + 2.0 * z.p)
  {
  }

  /** The new high part h of s + e. */
  lemma NewHighSize(fl: real -> real, mu: real -> real, z: Sizes, sum: real, e: real, v: real, h: real)
    requires SmallUnit(fl, mu) && z.Ok() && z.p == mu(z.B + z.a) && z.q == mu(z.p)
    requires Within(sum, z.B + z.a + z.p) && Within(v - sum, 3.0 * z.q + 3.0 * z.uq) && h == fl(v)
    ensures Within(h - v, z.p + 2.0 * z.q)
  {
    CarriedSize(z, sum, v);
    RoundedWithin(fl, mu, v, z.B + z.a, 2.0, z.p);
  }

  lemma DifferenceSize(fl: real -> real, mu: real -> real, z: Sizes, v: real, d: real)
    requires SmallUnit(fl, mu) && z.Ok() && z.q == mu(z.p) && z.uq == mu(z.q)
    requires Within(v, 4.0 * z.p + 9.0 * z.q) && d == fl(v)
    ensures Within(d - v, 4.0 * z.q + 9.0 * z.uq)
  {
    RoundedWithin(fl, mu, v, 4.0 * z.p, 9.0, z.q);
    assert LinearAt(mu, z.p, 3.0, z.p);
  }

  lemma NewLowSize(fl: real -> real, mu: real -> real, z: Sizes, v: real, l: real)
    requires SmallUnit(fl, mu) && z.Ok() && z.q == mu(z.p) && z.uq == mu(z.q)
    requires Within(v, z.p + 7.0 * z.q) && l == fl(v)
    ensures Within(l - v, z.q + 7.0 * z.uq)
  {
    RoundedWithin(fl, mu, v, z.p, 7.0, z.q);
  }

  /** The values of one step in terms of the recovered error r. */
  lemma StepValues(fl: real -> real, hi: real, lo: real, x: real, s: real, e: real, h: real, d: real)
    requires ErrorFree(fl) && Machine(fl, hi) && Machine(fl, x)
    requires s == fl(hi + x) && e == fl(hi + x - s + lo) && h == fl(s + e) && d == fl(h - s)
    ensures Add(Rounded(fl), DDAcc(hi, lo), x) == DDAcc(h, fl(e - d))
  {
    assert RecoveredAt(fl, hi, x);
    StepUnfolds(fl, DDAcc(hi, lo), x);
  }

  lemma StepSizes(z: Sizes, S: real, hi: real, lo: real, x: real, s: real, e: real, h: real, d: real, l: real)
    requires z.Ok() && Within(hi + lo - S, z.m)
    requires Within(hi + x - s, z.p + 3.0 * z.q) && Within(lo, 2.0 * z.ub)
    requires Within(e - (hi + x - s + lo), 3.0 * z.q + 3.0 * z.uq) && Within(h - (s + e), z.p + 2.0 * z.q)
    ensures Within(h - s, 4.0 * z.p + 9.0 * z.q)
    ensures Within(d - (h - s), 4.0 * z.q + 9.0 * z.uq) ==> Within(e - d, z.p + 7.0 * z.q)
    ensures Within(d - (h - s), 4.0 * z.q + 9.0 * z.uq) && Within(l - (e - d), z.q + 7.0 * z.uq) ==>
      Within(l, 2.0 * z.p) && Within(h + l - (S + x), z.m + 14.0 * z.q)
  {
  }

  /** One `add` keeps the bounds and costs a second-order error of 14 u^2 times the new total. */
  lemma PushTracks(fl: real -> real, mu: real -> real, m: real, S: real, B: real, acc: Acc<real>, x: real,
                   m': real, S': real, B': real, acc': Acc<real>)
    requires SmallUnit(fl, mu) && ErrorFree(fl) && Machine(fl, x)
    requires Within(S, B) && 0.0 <= m <= mu(B) && Tracks(fl, mu, m, S, B, acc)
    requires m' == m + 14.0 * mu(mu(B')) && S' == S + x && B' == B + Abs(x) && acc' == Add(Rounded(fl), acc, x)
    ensures Tracks(fl, mu, m', S', B', acc')
  {
    var z := SizesOf(fl, mu, B, Abs(x), m);
    var hi, lo := acc.hi, acc.lo;
    var s := fl(hi + x);
    var e := fl(hi + x - s + lo);
    var h := fl(s + e);
    var d := fl(h - s);
    StepValues(fl, hi, lo, x, s, e, h, d);
    AddBounds(fl, mu, z, S, x, hi, lo, s, e, h, d, fl(e - d));
    assert Machine(fl, fl(s + e));
  }

  lemma AddBounds(fl: real -> real, mu: real -> real, z: Sizes, S: real, x: real, hi: real, lo: real,
                  s: real, e: real, h: real, d: real, l: real)
    requires SmallUnit(fl, mu)
    requires z == Sizes(z.a, z.B, mu(z.B), mu(z.a), mu(z.ub), mu(z.B + z.a), mu(z.p), mu(z.q), z.m) && z.Ok()
    requires Within(S, z.B) && Within(x, z.a) && Within(hi + lo - S, z.m) && Within(lo, 2.0 * z.ub)
    requires s == fl(hi + x) && e == fl(hi + x - s + lo) && h == fl(s + e) && d == fl(h - s) && l == fl(e - d)
    ensures Within(l, 2.0 * z.p) && Within(h + l - (S + x), z.m + 14.0 * z.q)
  {
    HighSize(z, S, x, hi, lo);
    RecoveredSize(fl, mu, z, hi, x, s);
    CarrySize(fl, mu, z, hi + x - s, lo, e);
    NewHighSize(fl, mu, z, hi + lo + x, e, s + e, h);
    StepSizes(z, S, hi, lo, x, s, e, h, d, l);
    DifferenceSize(fl, mu, z, h - s, d);
    NewLowSize(fl, mu, z, e - d, l);
  }

  ghost predicate AllMachine(fl: real -> real, xs: seq<real>) { forall i :: 0 <= i < |xs| ==> Machine(fl, xs[i]) }

  function DDSum(fl: real -> real, xs: seq<real>): Acc<real> {
    AddAll(Rounded(fl), Start(Rounded(fl), DeterministicAccurate), xs)
  }

  lemma {:induction false} SumTracks(fl: real -> real, mu: real -> real, xs: seq<real>)
    requires SmallUnit(fl, mu) && ErrorFree(fl) && fl(0.0) == 0.0 && AllMachine(fl, xs) && SecondIsSmall(mu, xs)
    ensures Tracks(fl, mu, Second(mu, xs), Sum(xs), AbsSum(xs), DDSum(fl, xs))
  {
    if xs == [] {
      assert MonotoneAt(mu, 0.0, 0.0);
    } else {
      var n := |xs| - 1;
      SumTracks(fl, mu, xs[..n]);
      assert Machine(fl, xs[n]);
      PushTracks(fl, mu, Second(mu, xs[..n]), Sum(xs[..n]), AbsSum(xs[..n]), DDSum(fl, xs[..n]), xs[n],
                 Second(mu, xs), Sum(xs), AbsSum(xs), DDSum(fl, xs));
    }
  }

  lemma FinishWithin(fl: real -> real, mu: real -> real, v: real, S: real, m: real, second: real, r: real)
    requires Unit(fl, mu) && Within(v - S, m) && 0.0 <= m <= second && r == fl(v)
    ensures Within(r - S, second + mu(Abs(S)) + mu(second))
  {
    RoundedWithin(fl, mu, v, Abs(S), 1.0, second);
  }

  lemma {:induction false} StaysDoubleDouble(fl: real -> real, xs: seq<real>)
    ensures DDSum(fl, xs).DDAcc?
  {
    if xs != [] { StaysDoubleDouble(fl, xs[..|xs| - 1]); }
  }

  /** Every result is a machine number. */
  lemma ResultIsMachine(fl: real -> real, xs: seq<real>)
    requires ErrorFree(fl)
    ensures Machine(fl, Reduce(Rounded(fl), DeterministicAccurate, xs))
  {
    StaysDoubleDouble(fl, xs);
    FinishUnfolds(fl, xs, DDSum(fl, xs), Reduce(Rounded(fl), DeterministicAccurate, xs));
    assert Machine(fl, fl(DDSum(fl, xs).hi + DDSum(fl, xs).lo));
  }

  lemma FinishUnfolds(fl: real -> real, xs: seq<real>, acc: Acc<real>, r: real)
    requires acc == DDSum(fl, xs) && acc.DDAcc? && r == Reduce(Rounded(fl), DeterministicAccurate, xs)
    ensures r == fl(acc.hi + acc.lo)
  {
  }

  lemma TracksFinish(fl: real -> real, mu: real -> real, S: real, B: real, acc: Acc<real>, m: real, second: real,
                     r: real)
    requires Unit(fl, mu) && Tracks(fl, mu, m, S, B, acc) && 0.0 <= m <= second && r == fl(acc.hi + acc.lo)
    ensures Within(r - S, second + mu(Abs(S)) + mu(second))
  {
    FinishWithin(fl, mu, acc.hi + acc.lo, S, m, second, r);
  }

  /** The bound in terms of mu alone: the parts are off by a second-order error, and rounding their sum adds one
      rounding of the exact sum. */
  lemma SumWithin(fl: real -> real, mu: real -> real, xs: seq<real>, S: real, second: real, r: real)
    requires SmallUnit(fl, mu) && ErrorFree(fl) && fl(0.0) == 0.0 && AllMachine(fl, xs) && SecondIsSmall(mu, xs)
    requires Second(mu, xs) <= second && S == Sum(xs)
    requires r == Reduce(Rounded(fl), DeterministicAccurate, xs)
    ensures Within(r - S, second + mu(Abs(S)) + mu(second))
  {
    SumTracks(fl, mu, xs);
    FinishUnfolds(fl, xs, DDSum(fl, xs), r);
    TracksFinish(fl, mu, S, AbsSum(xs), DDSum(fl, xs), Second(mu, xs), second, r);
  }

  // ---- the bounds for "times u" -----------------------------------------------------------------

  /** The second-order error of n additions with total magnitude B. */
  function SecondOrder(u: real, n: nat, B: real): real { 14.0 * n as real * (u * (u * B)) }

  lemma SecondOrderIsMany(u: real, n: nat, B: real)
    ensures SecondOrder(u, n, B) == Many(n, Times(u)(Times(u)(B)))
  {
    ManyIsProduct(n, Times(u)(Times(u)(B)));
  }

  lemma ZeroIsExact(fl: real -> real, u: real)
    requires Rounds(fl, u)
    ensures fl(0.0) == 0.0
  {
    assert RelativeError(fl, u, 0.0);
  }

  /** The double-double sum of n machine numbers, while 14 * n * u <= 1: it is off by one rounding of the exact sum
      and an error of second order, however much cancels. */
  lemma DoubleDoubleBound(fl: real -> real, u: real, xs: seq<real>, n: nat, second: real)
    requires Rounds(fl, u) && ErrorFree(fl) && AllMachine(fl, xs) && n == |xs| && 14.0 * n as real * u <= 1.0
    requires second == SecondOrder(u, n, AbsSum(xs))
    ensures Within(Reduce(Rounded(fl), DeterministicAccurate, xs) - Sum(xs),
                   second + Times(u)(Abs(Sum(xs))) + Times(u)(second))
  {
    ZeroIsExact(fl, u);
    if xs == [] {
      TimesIsUnit(fl, u);
      EmptySum(fl);
    } else {
      TimesFits(fl, u, n);
      SecondOrderIsMany(u, n, AbsSum(xs));
      SecondBound(fl, Times(u), xs);
      SumWithin(fl, Times(u), xs, Sum(xs), second, Reduce(Rounded(fl), DeterministicAccurate, xs));
    }
  }

  lemma EmptySum(fl: real -> real)
    requires fl(0.0) == 0.0
    ensures Reduce(Rounded(fl), DeterministicAccurate, []) == 0.0
  {
  }
}
