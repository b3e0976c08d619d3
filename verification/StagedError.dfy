/** Rounding errors of sums of sums, stage by stage: rounding the terms, compensated summation, plain summation.
    Composed, the stages bound the whole dot product over all ranks, in both deterministic modes, and the
    compensated blocked one. */
module StagedError {
  import opened Arithmetic
  import opened Accumulators
  import opened Basics
  import opened Chunking
  import opened DotEngine
  import opened DotError
  import opened ExactSums
  import opened Rounding
  import Accurate = DoubleDoubleError
  import KahanError
  import R = ReproKernels
  import SummationError

  // ---- errors as functions of the magnitude -------------------------------------------

  /** The error allowed for an exact value of a given magnitude.  Such functions are known here by laws
      only, so that the proofs are free of products. */
  type Error = real -> real

  ghost predicate SplitsAt(e: Error, x: real, y: real) { e(x + y) == e(x) + e(y) }

  ghost predicate Lawful(e: Error) {
    (forall x, y :: SplitsAt(e, x, y)) && forall x, y :: MonotoneAt(e, x, y)
  }

  /** v was computed for an exact w of magnitude at most b. */
  ghost predicate Near(e: Error, v: real, w: real, b: real) { Within(w, b) && Within(v - w, e(b)) }

  ghost predicate AllNear(e: Error, vs: seq<real>, ws: seq<real>, bs: seq<real>) {
    |vs| == |ws| == |bs| && forall i :: 0 <= i < |vs| ==> Near(e, vs[i], ws[i], bs[i])
  }

  ghost predicate StageAt(e: Error, more: Error, e': Error, b: real) { e'(b) == e(b) + more(b + e(b)) }

  /** e' allows, on top of e, a further error of `more` of the computed size. */
  ghost predicate IsStage(e: Error, more: Error, e': Error) { forall b :: StageAt(e, more, e', b) }

  lemma {:induction false} TotalsNear(e: Error, vs: seq<real>, ws: seq<real>, bs: seq<real>)
    requires Lawful(e) && AllNear(e, vs, ws, bs)
    ensures Near(e, Sum(vs), Sum(ws), Sum(bs)) && AbsSum(vs) <= Sum(bs) + e(Sum(bs))
  {
    if vs == [] {
      assert SplitsAt(e, 0.0, 0.0);
    } else {
      var n := |vs| - 1;
      TotalsNear(e, vs[..n], ws[..n], bs[..n]);
      assert Near(e, vs[n], ws[n], bs[n]) && SplitsAt(e, Sum(bs[..n]), bs[n]);
    }
  }

  // ---- sums of computed values ----------------------------------------------------

  type Summation = seq<real> -> real

  ghost predicate SumsAt(sum: Summation, more: Error, n: nat, vs: seq<real>) {
    |vs| <= n ==> Within(sum(vs) - Sum(vs), more(AbsSum(vs)))
  }

  /** Sums of up to n values are off by at most `more` of their magnitudes. */
  ghost predicate SumsWithin(sum: Summation, more: Error, n: nat) {
    forall vs :: SumsAt(sum, more, n, vs)
  }

  lemma OneMoreStage(more: Error, e: Error, e': Error, v': real, v: real, size: real, w: real, b: real)
    requires Within(w, b) && Within(v - w, e(b)) && 0.0 <= size <= b + e(b) && Within(v' - v, more(size))
    requires MonotoneAt(more, size, b + e(b)) && StageAt(e, more, e', b)
    ensures Near(e', v', w, b)
  {
  }

  /** Summing values that carry the error e is one more stage. */
  lemma SumStage(sum: Summation, more: Error, n: nat, e: Error, e': Error, vs: seq<real>, ws: seq<real>, bs: seq<real>)
    requires Lawful(e) && Lawful(more) && IsStage(e, more, e')
    requires SumsWithin(sum, more, n) && |vs| <= n && AllNear(e, vs, ws, bs)
    ensures Near(e', sum(vs), Sum(ws), Sum(bs))
  {
    TotalsNear(e, vs, ws, bs);
    assert SumsAt(sum, more, n, vs);
    OneMoreStage(more, e, e', sum(vs), Sum(vs), AbsSum(vs), Sum(ws), Sum(bs));
  }

  // ---- local products ---------------------------------------------------------------------

  lemma RoundedTermsNear(fl: real -> real, mu: Error, ws: seq<real>, vs: seq<real>)
    requires Unit(fl, mu) && RoundedFrom(fl, ws, vs)
    ensures AllNear(mu, vs, ws, Magnitudes(ws))
  {
    forall i | 0 <= i < |ws| ensures Near(mu, vs[i], ws[i], Magnitudes(ws)[i]) { assert RoundsAt(fl, mu, ws[i]); }
  }

  /** Terms rounded once, then summed. */
  lemma OnePass(fl: real -> real, mu: Error, sum: Summation, more: Error, n: nat, e: Error, ws: seq<real>,
                vs: seq<real>)
    requires Unit(fl, mu) && Lawful(mu) && Lawful(more) && IsStage(mu, more, e)
    requires SumsWithin(sum, more, n) && |ws| <= n && RoundedFrom(fl, ws, vs)
    ensures Near(e, sum(vs), Sum(ws), AbsSum(ws))
  {
    RoundedTermsNear(fl, mu, ws, vs);
    SumStage(sum, more, n, mu, e, vs, ws, Magnitudes(ws));
    AbsSumIsSum(ws);
  }

  function ChunkSums(ws: seq<real>, len: nat, k: nat): seq<real> { ChunkMap(c => Sum(c), ws, len, k) }

  lemma ChunkTotals(ws: seq<real>, len: nat)
    requires len > 0
    ensures Sum(ChunkSums(ws, len, Chunks(|ws|, len))) == Sum(ws)
    ensures Sum(ChunkSums(Magnitudes(ws), len, Chunks(|ws|, len))) == AbsSum(ws)
  {
    LastCut(|ws|, len);
    ChunkTotal(ws, len, ChunkSums(ws, len, Chunks(|ws|, len)));
    ChunkTotal(Magnitudes(ws), len, ChunkSums(Magnitudes(ws), len, Chunks(|ws|, len)));
    AbsSumIsSum(ws);
  }

  lemma MagnitudesOfChunk(ws: seq<real>, len: nat, i: nat)
    ensures Sum(Chunk(Magnitudes(ws), len, i)) == AbsSum(Chunk(ws, len, i))
  {
    AbsSumIsSum(Chunk(ws, len, i));
    assert Magnitudes(Chunk(ws, len, i)) == Chunk(Magnitudes(ws), len, i);
  }

  lemma OneChunk(fl: real -> real, mu: Error, sum: Summation, more: Error, n: nat, e: Error, ws: seq<real>,
                 vs: seq<real>, len: nat, i: nat)
    requires Unit(fl, mu) && Lawful(mu) && Lawful(more) && IsStage(mu, more, e)
    requires SumsWithin(sum, more, n) && Min(|ws|, len) <= n && RoundedFrom(fl, ws, vs)
    ensures Near(e, sum(Chunk(vs, len, i)), Sum(Chunk(ws, len, i)), Sum(Chunk(Magnitudes(ws), len, i)))
  {
    var w, v := Chunk(ws, len, i), Chunk(vs, len, i);
    assert RoundedFrom(fl, w, v);
    OnePass(fl, mu, sum, more, n, e, w, v);
    MagnitudesOfChunk(ws, len, i);
  }

  /** The sums of k chunks. */
  lemma ChunksNear(fl: real -> real, mu: Error, sum: Summation, more: Error, n: nat, e: Error, ws: seq<real>,
                   vs: seq<real>, len: nat, k: nat, parts: seq<real>)
    requires Unit(fl, mu) && Lawful(mu) && Lawful(more) && IsStage(mu, more, e)
    requires SumsWithin(sum, more, n) && Min(|ws|, len) <= n && RoundedFrom(fl, ws, vs)
    requires |parts| == k && forall i :: 0 <= i < k ==> parts[i] == sum(Chunk(vs, len, i))
    ensures AllNear(e, parts, ChunkSums(ws, len, k), ChunkSums(Magnitudes(ws), len, k))
  {
    forall i | 0 <= i < k ensures Near(e, parts[i], ChunkSums(ws, len, k)[i], ChunkSums(Magnitudes(ws), len, k)[i]) {
      OneChunk(fl, mu, sum, more, n, e, ws, vs, len, i);
    }
  }

  /** Terms rounded once, summed chunk by chunk, and the chunk results summed. */
  lemma TwoPasses(fl: real -> real, mu: Error, sum: Summation, more: Error, n: nat, e: Error, more': Error, n': nat,
                  e': Error, ws: seq<real>, vs: seq<real>, len: nat, parts: seq<real>)
    requires Unit(fl, mu) && Lawful(mu) && Lawful(more) && IsStage(mu, more, e)
    requires Lawful(e) && Lawful(more') && IsStage(e, more', e')
    requires SumsWithin(sum, more, n) && Min(|ws|, len) <= n && RoundedFrom(fl, ws, vs) && len > 0
    requires |parts| == Chunks(|ws|, len) <= n' && forall i :: 0 <= i < |parts| ==> parts[i] == sum(Chunk(vs, len, i))
    requires SumsWithin(sum, more', n')
    ensures Near(e', sum(parts), Sum(ws), AbsSum(ws))
  {
    ChunksNear(fl, mu, sum, more, n, e, ws, vs, len, |parts|, parts);
    SumStage(sum, more', n', e, e', parts, ChunkSums(ws, len, |parts|), ChunkSums(Magnitudes(ws), len, |parts|));
    ChunkTotals(ws, len);
  }

  // ---- errors proportional to the magnitude -----------------------------------------------

  ghost predicate ProductAt(e: Error, k: real, b: real) { e(b) == k * b }

  /** e is k times the magnitude. */
  ghost predicate IsProduct(e: Error, k: real) { forall b :: ProductAt(e, k, b) }

  lemma ProductError(k: real) returns (e: Error)
    requires k >= 0.0
    ensures e == Times(k) && Lawful(e) && IsProduct(e, k)
  {
    e := Times(k);
    forall b ensures ProductAt(e, k, b) {}
    forall x, y ensures SplitsAt(e, x, y) { assert k * (x + y) == k * x + k * y; }
    forall x, y ensures MonotoneAt(e, x, y) {
      if 0.0 <= x <= y {
        Scale(0.0, x, k);
        Scale(x, y, k);
      }
    }
  }

  /** A factor q after a further relative error of k. */
  function Grown(q: real, k: real): real { q * (1.0 + k) }

  /** A stage multiplies the factors by which computed values can exceed exact ones. */
  lemma NextError(e: Error, q: real, more: Error, k: real, q': real) returns (e': Error)
    requires IsProduct(e, q - 1.0) && IsProduct(more, k) && q >= 1.0 && k >= 0.0 && q' == Grown(q, k)
    ensures q' >= 1.0 && Lawful(e') && IsStage(e, more, e') && IsProduct(e', q' - 1.0)
  {
    GrownIsMore(q, k);
    e' := ProductError(q' - 1.0);
    StageOfProducts(e, q, more, k, e', q');
  }

  lemma StageOfProducts(e: Error, q: real, more: Error, k: real, e': Error, q': real)
    requires IsProduct(e, q - 1.0) && IsProduct(more, k) && IsProduct(e', q' - 1.0) && q' == Grown(q, k)
    ensures IsStage(e, more, e')
  {
    forall b ensures StageAt(e, more, e', b) {
      assert ProductAt(e, q - 1.0, b) && ProductAt(more, k, b + e(b)) && ProductAt(e', q' - 1.0, b);
      StageTotal(q, k, b, e(b));
    }
  }

  lemma StageTotal(q: real, k: real, b: real, e: real)
    requires e == (q - 1.0) * b
    ensures e + k * (b + e) == (q * (1.0 + k) - 1.0) * b
  {
    assert b + e == q * b;
    assert k * (q * b) == (q * k) * b;
  }

  lemma GrownIsMore(q: real, k: real)
    requires q >= 1.0 && k >= 0.0
    ensures Grown(q, k) >= q
  {
    Scale(0.0, k, q);
  }

  /** Rounding the terms is the first stage. */
  lemma FirstError(fl: real -> real, u: real, p: real) returns (mu: Error)
    requires Rounds(fl, u) && p == 1.0 + u
    ensures p >= 1.0 && Unit(fl, mu) && Lawful(mu) && IsProduct(mu, u) && IsProduct(mu, p - 1.0)
  {
    mu := ProductError(u);
    assert p - 1.0 == u;
    TimesIsUnit(fl, u);
  }

  /** The relative error of Kahan summation of n values, see `KahanError.KahanErrorBound`. */
  function Kappa(u: real, n: nat): real { 3.0 * u + 14.0 * n as real * (u * u) }

  lemma KappaGrows(u: real, n: nat, n': nat)
    requires u >= 0.0 && n <= n'
    ensures 0.0 <= Kappa(u, n) <= Kappa(u, n') && 14.0 * n as real * u <= 14.0 * n' as real * u
  {
    Scale(0.0, u, u);
    Scale(0.0, u * u, 14.0 * n as real);
    Scale(14.0 * n as real, 14.0 * n' as real, u * u);
    Scale(14.0 * n as real, 14.0 * n' as real, u);
  }

  lemma BoundAtMost(u: real, m: nat, n: nat, B: real, k: Error)
    requires u >= 0.0 && m <= n && B >= 0.0 && ProductAt(k, Kappa(u, n), B)
    ensures KahanError.Bound(u, m, B) <= k(B)
  {
    KappaGrows(u, m, n);
    Scale(Kappa(u, m), Kappa(u, n), B);
  }

  /** The relative error of double-double summation of n machine numbers, see `Accurate.DoubleDoubleBound`. */
  function AccurateRate(u: real, n: nat): real { u + (1.0 + u) * (14.0 * n as real * (u * u)) }

  lemma AccurateGrows(u: real, n: nat, k: real)
    requires u >= 0.0 && k == 14.0 * n as real * (u * u)
    ensures k >= 0.0 && AccurateRate(u, n) >= 0.0
  {
    Scale(0.0, u, u);
    Scale(0.0, u * u, 14.0 * n as real);
    Scale(0.0, k, 1.0 + u);
  }

  lemma SecondOrderAtMost(u: real, m: nat, n: nat, B: real, k: real, second: real)
    requires u >= 0.0 && m <= n && B >= 0.0 && k == 14.0 * n as real * (u * u)
    requires second == Accurate.SecondOrder(u, m, B)
    ensures second <= k * B
  {
    var j := 14.0 * m as real * (u * u);
    Scale(0.0, u, u);
    Scale(14.0 * m as real, 14.0 * n as real, u * u);
    Scale(j, k, B);
    assert u * (u * B) == (u * u) * B;
    assert 14.0 * m as real * ((u * u) * B) == j * B;
  }

  lemma OnePlus(u: real, x: real)
    ensures (1.0 + u) * x == x + u * x
  {
  }

  lemma AddFactors(u: real, r: real, B: real)
    ensures (u + r) * B == u * B + r * B
  {
  }

  lemma Regroup(f: real, k: real, B: real, kB: real, r: real)
    requires kB == k * B && r == f * k
    ensures f * kB == r * B
  {
  }

  lemma AccurateTotal(u: real, B: real, S: real, k: real, second: real, r: real)
    requires u >= 0.0 && S <= B && second <= k * B && r == (1.0 + u) * k
    ensures second + u * S + u * second <= (u + r) * B
  {
    SecondWithOne(u, B, k, second, r);
    Scale(S, B, u);
    AddFactors(u, r, B);
  }

  lemma SecondWithOne(u: real, B: real, k: real, second: real, r: real)
    requires u >= 0.0 && second <= k * B && r == (1.0 + u) * k
    ensures second + u * second <= r * B
  {
    Scale(second, k * B, 1.0 + u);
    OnePlus(u, second);
    Regroup(1.0 + u, k, B, k * B, r);
  }

  /** `rate` times the magnitude B covers the bound for up to n values with a sum of S in magnitude. */
  ghost predicate CoversAt(u: real, n: nat, rate: real, m: nat, S: real, B: real) {
    m <= n && 0.0 <= S <= B ==>
      var second := Accurate.SecondOrder(u, m, B);
      second + Times(u)(S) + Times(u)(second) <= rate * B
  }

  ghost predicate Covers(u: real, n: nat, rate: real) { forall m, S, B :: CoversAt(u, n, rate, m, S, B) }

  lemma AccurateRateCovers(u: real, n: nat)
    requires u >= 0.0
    ensures Covers(u, n, AccurateRate(u, n))
  {
    var k := 14.0 * n as real * (u * u);
    forall m: nat, S, B ensures CoversAt(u, n, AccurateRate(u, n), m, S, B) {
      if m <= n && 0.0 <= S <= B {
        var second := Accurate.SecondOrder(u, m, B);
        SecondOrderAtMost(u, m, n, B, k, second);
        AccurateTotal(u, B, S, k, second, (1.0 + u) * k);
      }
    }
  }

  /** The sum of a deterministic mode.  The bound for double-doubles is about machine numbers; other values do not
      occur, and the exact sum stands for theirs. */
  ghost function ModeSum(fl: real -> real, mode: Mode): Summation {
    vs =>
      if mode == DeterministicAccurate && !Accurate.AllMachine(fl, vs) then Sum(vs) else Reduce(Rounded(fl), mode, vs)
  }

  /** What a mode needs of the rounding beside its relative error. */
  ghost predicate Supports(fl: real -> real, mode: Mode) {
    mode != Fast && (mode == DeterministicAccurate ==> Accurate.ErrorFree(fl))
  }

  lemma KahanSumAt(fl: real -> real, u: real, vs: seq<real>, more: Error, b: real)
    requires Rounds(fl, u) && 14.0 * |vs| as real * u <= 1.0
    requires b == KahanError.Bound(u, |vs|, AbsSum(vs)) && b <= more(AbsSum(vs))
    ensures SumsAt(ModeSum(fl, Deterministic), more, |vs|, vs)
  {
    KahanAtMost(fl, u, vs, AbsSum(vs), b);
  }

  lemma AccurateSumAt(fl: real -> real, u: real, vs: seq<real>, n: nat, more: Error, second: real)
    requires Rounds(fl, u) && Accurate.ErrorFree(fl) && n == |vs| && 14.0 * n as real * u <= 1.0
    requires second == Accurate.SecondOrder(u, n, AbsSum(vs)) && 0.0 <= more(AbsSum(vs))
    requires second + Times(u)(Abs(Sum(vs))) + Times(u)(second) <= more(AbsSum(vs))
    ensures SumsAt(ModeSum(fl, DeterministicAccurate), more, n, vs)
  {
    if Accurate.AllMachine(fl, vs) { Accurate.DoubleDoubleBound(fl, u, vs, n, second); }
  }

  /** Relative errors of the sums of a mode, by the number of values. */
  type Rates = nat -> real

  ghost predicate RateAt(kappa: Rates, u: real, mode: Mode, n: nat) {
    kappa(n) == if mode == DeterministicAccurate then AccurateRate(u, n) else Kappa(u, n)
  }

  ghost predicate AreRates(kappa: Rates, u: real, mode: Mode) { forall n :: RateAt(kappa, u, mode, n) }

  lemma KahanSumError(fl: real -> real, u: real, n: nat) returns (more: Error)
    requires Rounds(fl, u) && 14.0 * n as real * u <= 1.0
    ensures Lawful(more) && IsProduct(more, Kappa(u, n)) && Kappa(u, n) >= 0.0
    ensures SumsWithin(ModeSum(fl, Deterministic), more, n)
  {
    KappaGrows(u, n, n);
    more := ProductError(Kappa(u, n));
    forall vs ensures SumsAt(ModeSum(fl, Deterministic), more, n, vs) {
      if |vs| <= n {
        assert ProductAt(more, Kappa(u, n), AbsSum(vs));
        KappaGrows(u, |vs|, n);
        BoundAtMost(u, |vs|, n, AbsSum(vs), more);
        KahanSumAt(fl, u, vs, more, KahanError.Bound(u, |vs|, AbsSum(vs)));
      }
    }
  }

  lemma ShorterFits(u: real, m: nat, n: nat)
    requires u >= 0.0 && m <= n && 14.0 * n as real * u <= 1.0
    ensures 14.0 * m as real * u <= 1.0
  {
    KappaGrows(u, m, n);
  }

  lemma AccurateSumFits(fl: real -> real, u: real, n: nat, rate: real, vs: seq<real>, m: nat, B: real, more: Error)
    requires Rounds(fl, u) && Accurate.ErrorFree(fl) && 14.0 * m as real * u <= 1.0 && m == |vs| <= n && B == AbsSum(vs)
    requires Lawful(more) && ProductAt(more, rate, B) && Covers(u, n, rate)
    ensures SumsAt(ModeSum(fl, DeterministicAccurate), more, n, vs)
  {
    assert MonotoneAt(more, B, B) && CoversAt(u, n, rate, m, Abs(Sum(vs)), B);
    AccurateSumAt(fl, u, vs, m, more, Accurate.SecondOrder(u, m, B));
  }

  lemma AccurateSumsWithin(fl: real -> real, u: real, n: nat, rate: real, more: Error)
    requires Rounds(fl, u) && Accurate.ErrorFree(fl) && 14.0 * n as real * u <= 1.0
    requires Lawful(more) && IsProduct(more, rate) && Covers(u, n, rate)
    ensures SumsWithin(ModeSum(fl, DeterministicAccurate), more, n)
  {
    forall vs ensures SumsAt(ModeSum(fl, DeterministicAccurate), more, n, vs) {
      if |vs| <= n {
        ShorterFits(u, |vs|, n);
        assert ProductAt(more, rate, AbsSum(vs));
        AccurateSumFits(fl, u, n, rate, vs, |vs|, AbsSum(vs), more);
      }
    }
  }

  lemma AccurateSumError(fl: real -> real, u: real, n: nat) returns (more: Error)
    requires Rounds(fl, u) && Accurate.ErrorFree(fl) && 14.0 * n as real * u <= 1.0
    ensures Lawful(more) && IsProduct(more, AccurateRate(u, n)) && AccurateRate(u, n) >= 0.0
    ensures SumsWithin(ModeSum(fl, DeterministicAccurate), more, n)
  {
    AccurateGrows(u, n, 14.0 * n as real * (u * u));
    AccurateRateCovers(u, n);
    more := ProductError(AccurateRate(u, n));
    AccurateSumsWithin(fl, u, n, AccurateRate(u, n), more);
  }

  lemma ModeSumError(fl: real -> real, u: real, mode: Mode, kappa: Rates, n: nat) returns (more: Error)
    requires Rounds(fl, u) && Supports(fl, mode) && AreRates(kappa, u, mode) && 14.0 * n as real * u <= 1.0
    ensures Lawful(more) && IsProduct(more, kappa(n)) && kappa(n) >= 0.0 && SumsWithin(ModeSum(fl, mode), more, n)
  {
    assert RateAt(kappa, u, mode, n);
    if mode == DeterministicAccurate {
      more := AccurateSumError(fl, u, n);
    } else {
      more := KahanSumError(fl, u, n);
    }
  }

  /** v was computed for w with a factor of q on the magnitude b. */
  ghost predicate NearBy(q: real, v: real, w: real, b: real) { Within(w, b) && Within(v - w, (q - 1.0) * b) }

  lemma NearIsNearBy(e: Error, q: real, v: real, w: real, b: real)
    requires IsProduct(e, q - 1.0) && Near(e, v, w, b)
    ensures NearBy(q, v, w, b)
  {
    assert ProductAt(e, q - 1.0, b);
  }

  // ---- the local product ---------------------------------------------------------------------

  lemma OnePassNear(fl: real -> real, u: real, sum: Summation, more: Error, k: real, n: nat, p: real, q: real,
                    ws: seq<real>, vs: seq<real>)
    requires Rounds(fl, u) && Lawful(more) && IsProduct(more, k) && k >= 0.0 && SumsWithin(sum, more, n)
    requires p == 1.0 + u && q == Grown(p, k) && |ws| <= n && RoundedFrom(fl, ws, vs)
    ensures NearBy(q, sum(vs), Sum(ws), AbsSum(ws))
  {
    var mu := FirstError(fl, u, p);
    var e := NextError(mu, p, more, k, q);
    OnePass(fl, mu, sum, more, n, e, ws, vs);
    NearIsNearBy(e, q, sum(vs), Sum(ws), AbsSum(ws));
  }

  lemma TwoPassNear(fl: real -> real, u: real, sum: Summation, more: Error, k: real, n: nat, p: real, q: real,
                    more': Error, k': real, n': nat, q': real,
                    ws: seq<real>, vs: seq<real>, len: nat, parts: seq<real>)
    requires Rounds(fl, u) && Lawful(more) && IsProduct(more, k) && k >= 0.0 && SumsWithin(sum, more, n)
    requires Lawful(more') && IsProduct(more', k') && k' >= 0.0 && SumsWithin(sum, more', n')
    requires p == 1.0 + u && q == Grown(p, k) && q' == Grown(q, k')
    requires Min(|ws|, len) <= n && RoundedFrom(fl, ws, vs) && len > 0
    requires |parts| == Chunks(|ws|, len) <= n' && forall i :: 0 <= i < |parts| ==> parts[i] == sum(Chunk(vs, len, i))
    ensures NearBy(q', sum(parts), Sum(ws), AbsSum(ws))
  {
    var mu := FirstError(fl, u, p);
    var e := NextError(mu, p, more, k, q);
    var e' := NextError(e, q, more', k', q');
    TwoPasses(fl, mu, sum, more, n, e, more', n', e', ws, vs, len, parts);
    NearIsNearBy(e', q', sum(parts), Sum(ws), AbsSum(ws));
  }

  lemma FewerChunks(m: nat, n: nat, len: nat)
    requires m <= n && len > 0
    ensures Chunks(m, len) <= Chunks(n, len)
  {
    DivisionBounds(m + len - 1, len);
    DivisionBounds(n + len - 1, len);
    LessByProduct(Chunks(m, len), Chunks(n, len) + 1, len);
  }

  lemma LessByProduct(a: nat, b: nat, len: nat)
    requires a * len < b * len
    ensures a < b
  {
    assert (b - a) * len > 0;
  }

  predicate SinglePass(o: Options) { o.singleThreadLocal || !o.rayon }

  function Len(o: Options): nat { Max(o.chunkLen, 1) }

  predicate Fits(u: real, n: nat) { 14.0 * n as real * u <= 1.0 }

  /** The sums on a rank that holds up to n terms are short enough for the bound. */
  predicate LocalFits(u: real, o: Options, n: nat) {
    if SinglePass(o) then Fits(u, n) else Fits(u, Min(n, Len(o))) && Fits(u, Chunks(n, Len(o)))
  }

  /** Rounded products, summed in one pass, or chunk by chunk and then once more. */
  function LocalGrowth(p: real, kappa: Rates, o: Options, n: nat): real {
    if SinglePass(o) then Grown(p, kappa(n)) else Grown(Grown(p, kappa(Min(n, Len(o)))), kappa(Chunks(n, Len(o))))
  }

  /** Rounded values are machine numbers, so that their sum is the one of the mode. */
  lemma ModeSumIsReduce(fl: real -> real, mode: Mode, vs: seq<real>)
    requires Supports(fl, mode) && forall i :: 0 <= i < |vs| ==> Accurate.Machine(fl, vs[i]) || mode == Deterministic
    ensures ModeSum(fl, mode)(vs) == Reduce(Rounded(fl), mode, vs)
  {
  }

  lemma ProductsAreMachine(fl: real -> real, x: seq<real>, y: seq<real>)
    requires Accurate.ErrorFree(fl) && |x| == |y|
    ensures forall i :: 0 <= i < |x| ==> Accurate.Machine(fl, Products(Rounded(fl), x, y)[i])
  {
    forall i | 0 <= i < |x| ensures Accurate.Machine(fl, Products(Rounded(fl), x, y)[i]) {
      assert Accurate.Machine(fl, fl(x[i] * y[i]));
    }
  }

  lemma ModeSumOfProducts(fl: real -> real, mode: Mode, x: seq<real>, y: seq<real>, vs: seq<real>)
    requires Supports(fl, mode) && |x| == |y| && vs == Products(Rounded(fl), x, y)
    ensures ModeSum(fl, mode)(vs) == Reduce(Rounded(fl), mode, vs)
    ensures forall len: nat, i: nat ::
      ModeSum(fl, mode)(Chunk(vs, len, i)) == Reduce(Rounded(fl), mode, Chunk(vs, len, i))
  {
    if mode == DeterministicAccurate { ProductsAreMachine(fl, x, y); }
  }

  lemma SliceNear(fl: real -> real, u: real, mode: Mode, p: real, kappa: Rates, n: nat, x: seq<real>, y: seq<real>,
                  ws: seq<real>)
    requires Rounds(fl, u) && Supports(fl, mode) && p == 1.0 + u && AreRates(kappa, u, mode)
    requires 14.0 * n as real * u <= 1.0 && |x| == |y| <= n && ws == Products(Reals(), x, y)
    ensures NearBy(Grown(p, kappa(n)), DotSlice(Rounded(fl), mode, x, y), Sum(ws), AbsSum(ws))
  {
    var vs := Products(Rounded(fl), x, y);
    var more := ModeSumError(fl, u, mode, kappa, n);
    OnePassNear(fl, u, ModeSum(fl, mode), more, kappa(n), n, p, Grown(p, kappa(n)), ws, vs);
    ModeSumOfProducts(fl, mode, x, y, vs);
  }

  lemma PartialsAreModeSums(fl: real -> real, mode: Mode, x: seq<real>, y: seq<real>, vs: seq<real>, len: nat, k: nat,
                            parts: seq<real>)
    requires Supports(fl, mode) && |x| == |y| && vs == Products(Rounded(fl), x, y)
    requires parts == Partials(Rounded(fl), mode, vs, len, k)
    ensures forall i :: 0 <= i < k ==> parts[i] == ModeSum(fl, mode)(Chunk(vs, len, i))
    ensures ModeSum(fl, mode)(parts) == Reduce(Rounded(fl), mode, parts)
  {
    ModeSumOfProducts(fl, mode, x, y, vs);
    if mode == DeterministicAccurate {
      forall i | 0 <= i < k ensures Accurate.Machine(fl, parts[i]) { Accurate.ResultIsMachine(fl, Chunk(vs, len, i)); }
    }
  }

  lemma ChunkedNear(fl: real -> real, u: real, p: real, kappa: Rates, o: Options, n: nat, c: nat, q: real,
                    x: seq<real>, y: seq<real>, ws: seq<real>)
    requires Rounds(fl, u) && Supports(fl, o.mode) && p == 1.0 + u && AreRates(kappa, u, o.mode)
    requires 14.0 * n as real * u <= 1.0 && 14.0 * c as real * u <= 1.0
    requires o.rayon && x != [] && |x| == |y| && ws == Products(Reals(), x, y)
    requires Min(|x|, Len(o)) <= n && Chunks(|x|, Len(o)) <= c && q == Grown(Grown(p, kappa(n)), kappa(c))
    ensures NearBy(q, DotChunked(Rounded(fl), o, x, y), Sum(ws), AbsSum(ws))
  {
    var vs, len := Products(Rounded(fl), x, y), Len(o);
    var parts := Partials(Rounded(fl), o.mode, vs, len, Chunks(|ws|, len));
    PartialsAreModeSums(fl, o.mode, x, y, vs, len, Chunks(|ws|, len), parts);
    var more := ModeSumError(fl, u, o.mode, kappa, n);
    var more' := ModeSumError(fl, u, o.mode, kappa, c);
    TwoPassNear(fl, u, ModeSum(fl, o.mode), more, kappa(n), n, p, Grown(p, kappa(n)), more', kappa(c), c, q,
                ws, vs, len, parts);
  }

  lemma NothingIsNear(q: real)
    ensures NearBy(q, 0.0, Sum([]), AbsSum([]))
  {
  }

  /** The local product of a rank with up to n terms. */
  lemma LocalDotNear(fl: real -> real, u: real, p: real, kappa: Rates, o: Options, n: nat, xy: Pair<real>,
                     ws: seq<real>)
    requires Rounds(fl, u) && Supports(fl, o.mode) && p == 1.0 + u && AreRates(kappa, u, o.mode) && LocalFits(u, o, n)
    requires Matched(xy) && |xy.0| <= n && ws == Products(Reals(), xy.0, xy.1)
    ensures NearBy(LocalGrowth(p, kappa, o, n), DotLocal(Rounded(fl), o, xy), Sum(ws), AbsSum(ws))
  {
    if SinglePass(o) {
      SliceNear(fl, u, o.mode, p, kappa, n, xy.0, xy.1, ws);
    }
    if xy.0 == [] {
      assert ws == [];
      NothingIsNear(LocalGrowth(p, kappa, o, n));
    } else if !SinglePass(o) {
      FewerChunks(|xy.0|, n, Len(o));
      ChunkedNear(fl, u, p, kappa, o, Min(n, Len(o)), Chunks(n, Len(o)), LocalGrowth(p, kappa, o, n), xy.0, xy.1, ws);
    }
  }

  // ---- all ranks -------------------------------------------------------------------------------

  lemma NearByGrown(q: real, k: real, v: real, w: real, b: real)
    requires NearBy(q, v, w, b) && q >= 1.0 && k >= 0.0
    ensures NearBy(Grown(q, k), v, w, b)
  {
    GrownIsMore(q, k);
    Scale(q - 1.0, Grown(q, k) - 1.0, b);
  }

  ghost predicate AllNearBy(q: real, vs: seq<real>, ws: seq<real>, bs: seq<real>) {
    |vs| == |ws| == |bs| && forall i :: 0 <= i < |vs| ==> NearBy(q, vs[i], ws[i], bs[i])
  }

  lemma NearByIsNear(q: real, vs: seq<real>, ws: seq<real>, bs: seq<real>) returns (e: Error)
    requires q >= 1.0 && AllNearBy(q, vs, ws, bs)
    ensures Lawful(e) && IsProduct(e, q - 1.0) && AllNear(e, vs, ws, bs)
  {
    e := ProductError(q - 1.0);
    forall i | 0 <= i < |vs| ensures Near(e, vs[i], ws[i], bs[i]) {
      assert NearBy(q, vs[i], ws[i], bs[i]) && ProductAt(e, q - 1.0, bs[i]);
    }
  }

  lemma SumByProducts(sum: Summation, more: Error, k: real, n: nat, e: Error, q: real, q': real,
                      vs: seq<real>, ws: seq<real>, bs: seq<real>)
    requires Lawful(more) && IsProduct(more, k) && k >= 0.0 && SumsWithin(sum, more, n)
    requires Lawful(e) && IsProduct(e, q - 1.0) && q >= 1.0 && |vs| <= n && AllNear(e, vs, ws, bs) && q' == Grown(q, k)
    ensures NearBy(q', sum(vs), Sum(ws), Sum(bs))
  {
    var e' := NextError(e, q, more, k, q');
    SumStage(sum, more, n, e, e', vs, ws, bs);
    NearIsNearBy(e', q', sum(vs), Sum(ws), Sum(bs));
  }

  /** A sum of values with factor q. */
  lemma SumNearBy(sum: Summation, more: Error, k: real, n: nat, q: real, vs: seq<real>, ws: seq<real>, bs: seq<real>)
    requires Lawful(more) && IsProduct(more, k) && k >= 0.0 && SumsWithin(sum, more, n)
    requires q >= 1.0 && |vs| <= n && AllNearBy(q, vs, ws, bs)
    ensures NearBy(Grown(q, k), sum(vs), Sum(ws), Sum(bs))
  {
    var e := NearByIsNear(q, vs, ws, bs);
    SumByProducts(sum, more, k, n, e, q, Grown(q, k), vs, ws, bs);
  }

  /** On more than one rank, `dot` is one more reduction, over the ranks' local products. */
  lemma DotReducesRanks(w: World<real>, i: nat, locals: seq<real>)
    requires WellFormed(w) && i < |w.pairs[0]| && w.o.mode != Fast && |locals| == |w.pairs|
    requires forall r :: 0 <= r < |locals| ==> locals[r] == DotLocal(w.A, w.o, w.pairs[r][i])
    ensures Dot(w, i) == if |locals| == 1 then locals[0] else Reduce(w.A, w.o.mode, locals)
  {
    var ps := Column(w, i);
    assert Lane(ps, 0) == locals;
    if |ps| > 1 { LanesAreIndependent(w.A, w.o.mode, ps, 1, 0); }
  }

  /** What all ranks together hold for pair i: exact local products and the magnitudes of their terms. */
  function ExactLocals(w: World<real>, i: nat): seq<real>
    requires WellFormed(w) && i < |w.pairs[0]|
  {
    seq(|w.pairs|, r requires 0 <= r < |w.pairs| => Sum(Products(Reals(), w.pairs[r][i].0, w.pairs[r][i].1)))
  }

  function LocalMagnitudes(w: World<real>, i: nat): seq<real>
    requires WellFormed(w) && i < |w.pairs[0]|
  {
    seq(|w.pairs|, r requires 0 <= r < |w.pairs| => AbsSum(Products(Reals(), w.pairs[r][i].0, w.pairs[r][i].1)))
  }

  lemma LocalsNear(fl: real -> real, u: real, p: real, kappa: Rates, w: World<real>, i: nat, n: nat, locals: seq<real>)
    requires Rounds(fl, u) && Supports(fl, w.o.mode) && p == 1.0 + u && AreRates(kappa, u, w.o.mode)
    requires LocalFits(u, w.o, n) && WellFormed(w) && i < |w.pairs[0]| && w.A == Rounded(fl) && |locals| == |w.pairs|
    requires forall r :: 0 <= r < |w.pairs| ==> |w.pairs[r][i].0| <= n
    requires forall r :: 0 <= r < |locals| ==> locals[r] == DotLocal(w.A, w.o, w.pairs[r][i])
    ensures AllNearBy(LocalGrowth(p, kappa, w.o, n), locals, ExactLocals(w, i), LocalMagnitudes(w, i))
  {
    forall r | 0 <= r < |locals|
      ensures NearBy(LocalGrowth(p, kappa, w.o, n), locals[r], ExactLocals(w, i)[r], LocalMagnitudes(w, i)[r])
    {
      LocalDotNear(fl, u, p, kappa, w.o, n, w.pairs[r][i], Products(Reals(), w.pairs[r][i].0, w.pairs[r][i].1));
    }
  }

  lemma RatesAreNotNegative(kappa: Rates, u: real, mode: Mode, n: nat)
    requires u >= 0.0 && AreRates(kappa, u, mode)
    ensures kappa(n) >= 0.0
  {
    assert RateAt(kappa, u, mode, n);
    KappaGrows(u, n, n);
    AccurateGrows(u, n, 14.0 * n as real * (u * u));
  }

  lemma LocalGrowthAtLeastOne(u: real, p: real, kappa: Rates, o: Options, n: nat)
    requires u >= 0.0 && p == 1.0 + u && AreRates(kappa, u, o.mode)
    ensures LocalGrowth(p, kappa, o, n) >= 1.0
  {
    var m, c := if SinglePass(o) then n else Min(n, Len(o)), Chunks(n, Len(o));
    RatesAreNotNegative(kappa, u, o.mode, m);
    RatesAreNotNegative(kappa, u, o.mode, c);
    GrownIsMore(p, kappa(m));
    GrownIsMore(Grown(p, kappa(m)), kappa(c));
  }

  lemma OneRankNear(k: real, q: real, v: real, vs: seq<real>, ws: seq<real>, bs: seq<real>)
    requires k >= 0.0 && q >= 1.0 && |vs| == 1 && AllNearBy(q, vs, ws, bs) && v == vs[0]
    ensures NearBy(Grown(q, k), v, Sum(ws), Sum(bs))
  {
    assert NearBy(q, vs[0], ws[0], bs[0]);
    NearByGrown(q, k, vs[0], ws[0], bs[0]);
    SumOfOne(ws);
    SumOfOne(bs);
  }

  lemma ManyRanksNear(fl: real -> real, u: real, mode: Mode, kappa: Rates, q: real, vs: seq<real>, ws: seq<real>,
                      bs: seq<real>)
    requires Rounds(fl, u) && Supports(fl, mode) && AreRates(kappa, u, mode) && Fits(u, |vs|) && q >= 1.0
    requires AllNearBy(q, vs, ws, bs) && ModeSum(fl, mode)(vs) == Reduce(Rounded(fl), mode, vs)
    ensures NearBy(Grown(q, kappa(|vs|)), Reduce(Rounded(fl), mode, vs), Sum(ws), Sum(bs))
  {
    var more := ModeSumError(fl, u, mode, kappa, |vs|);
    SumNearBy(ModeSum(fl, mode), more, kappa(|vs|), |vs|, q, vs, ws, bs);
  }

  lemma LocalIsMachine(fl: real -> real, u: real, o: Options, xy: Pair<real>)
    requires Rounds(fl, u) && Accurate.ErrorFree(fl) && o.mode == DeterministicAccurate && Matched(xy)
    ensures Accurate.Machine(fl, DotLocal(Rounded(fl), o, xy))
  {
    var vs, len := Products(Rounded(fl), xy.0, xy.1), Len(o);
    Accurate.ZeroIsExact(fl, u);
    Accurate.ResultIsMachine(fl, vs);
    Accurate.ResultIsMachine(fl, Partials(Rounded(fl), o.mode, vs, len, Chunks(|xy.0|, len)));
  }

  lemma LocalsAreModeSum(fl: real -> real, u: real, w: World<real>, i: nat, vs: seq<real>)
    requires Rounds(fl, u) && Supports(fl, w.o.mode)
    requires WellFormed(w) && i < |w.pairs[0]| && w.A == Rounded(fl) && |vs| == |w.pairs|
    requires forall r :: 0 <= r < |vs| ==> vs[r] == DotLocal(w.A, w.o, w.pairs[r][i])
    ensures ModeSum(fl, w.o.mode)(vs) == Reduce(Rounded(fl), w.o.mode, vs)
  {
    if w.o.mode == DeterministicAccurate {
      forall r | 0 <= r < |vs| ensures Accurate.Machine(fl, vs[r]) { LocalIsMachine(fl, u, w.o, w.pairs[r][i]); }
    }
  }

  lemma RanksNear(fl: real -> real, u: real, kappa: Rates, q: real, w: World<real>, i: nat, vs: seq<real>,
                  ws: seq<real>, bs: seq<real>)
    requires Rounds(fl, u) && Supports(fl, w.o.mode) && AreRates(kappa, u, w.o.mode) && Fits(u, |w.pairs|) && q >= 1.0
    requires WellFormed(w) && i < |w.pairs[0]| && w.A == Rounded(fl) && |vs| == |w.pairs|
    requires forall r :: 0 <= r < |vs| ==> vs[r] == DotLocal(w.A, w.o, w.pairs[r][i])
    requires AllNearBy(q, vs, ws, bs)
    ensures NearBy(Grown(q, kappa(|vs|)), Dot(w, i), Sum(ws), Sum(bs))
  {
    DotReducesRanks(w, i, vs);
    if |vs| == 1 {
      RatesAreNotNegative(kappa, u, w.o.mode, 1);
      OneRankNear(kappa(1), q, vs[0], vs, ws, bs);
    } else {
      LocalsAreModeSum(fl, u, w, i, vs);
      ManyRanksNear(fl, u, w.o.mode, kappa, q, vs, ws, bs);
    }
  }

  lemma SumOfOne(xs: seq<real>)
    requires |xs| == 1
    ensures Sum(xs) == xs[0]
  {
    assert Sum(xs[..0]) == 0.0;
  }

  /** The whole `dot` of a deterministic mode, over all ranks: each stage of compensated summation, of at most m
      values, multiplies the factor by 1 + kappa(m), and rounding the products by 1 + u.  The error is at most
      the product of the factors, less one, times the sum of the magnitudes of all exact products. */
  lemma DotErrorBound(fl: real -> real, u: real, p: real, kappa: Rates, w: World<real>, i: nat, n: nat)
    requires Rounds(fl, u) && Supports(fl, w.o.mode) && p == 1.0 + u && AreRates(kappa, u, w.o.mode)
    requires WellFormed(w) && i < |w.pairs[0]| && w.A == Rounded(fl)
    requires forall r :: 0 <= r < |w.pairs| ==> |w.pairs[r][i].0| <= n
    requires LocalFits(u, w.o, n) && Fits(u, |w.pairs|)
    ensures NearBy(Grown(LocalGrowth(p, kappa, w.o, n), kappa(|w.pairs|)),
      Dot(w, i), Sum(ExactLocals(w, i)), Sum(LocalMagnitudes(w, i)))
  {
    var locals := seq(|w.pairs|, r requires 0 <= r < |w.pairs| => DotLocal(w.A, w.o, w.pairs[r][i]));
    LocalsNear(fl, u, p, kappa, w, i, n, locals);
    LocalGrowthAtLeastOne(u, p, kappa, w.o, n);
    RanksNear(fl, u, kappa, LocalGrowth(p, kappa, w.o, n), w, i, locals, ExactLocals(w, i), LocalMagnitudes(w, i));
  }

  // ---- the compensated blocked kernel --------------------------------------------------------

  ghost predicate AtMost(e: Error, e': Error) { forall b :: AtMostAt(e, e', b) }

  ghost predicate AtMostAt(e: Error, e': Error, b: real) { b >= 0.0 ==> e(b) <= e'(b) }

  /** The errors of a running sum after 0, 1, 2, ... additions. */
  type Errors = nat -> Error

  ghost predicate LinkedAt(es: Errors, mu: Error, i: nat) { Lawful(es(i)) && IsStage(es(i), mu, es(i + 1)) }

  ghost predicate Linked(es: Errors, mu: Error) { Lawful(mu) && forall i :: LinkedAt(es, mu, i) }

  /** One addition of a running sum. */
  lemma AdditionStage(fl: real -> real, mu: Error, e: Error, e': Error, s: real, S: real, B: real, v: real, w: real,
                      b: real)
    requires Unit(fl, mu) && Lawful(e) && IsStage(e, mu, e') && Near(e, s, S, B) && Near(e, v, w, b)
    ensures Near(e', fl(s + v), S + w, B + b)
  {
    assert SplitsAt(e, B, b) && RoundsAt(fl, mu, s + v);
    assert MonotoneAt(mu, Abs(s + v), B + b + e(B + b)) && StageAt(e, mu, e', B + b);
  }

  lemma StageIsMore(e: Error, more: Error, e': Error)
    requires Lawful(e) && Lawful(more) && IsStage(e, more, e')
    ensures AtMost(e, e')
  {
    forall b ensures AtMostAt(e, e', b) {
      assert StageAt(e, more, e', b) && MonotoneAt(e, b, b) && MonotoneAt(more, b + e(b), b + e(b));
    }
  }

  lemma {:induction false} ErrorsGrow(es: Errors, mu: Error, n: nat)
    requires Linked(es, mu)
    ensures AtMost(es(0), es(n))
  {
    if n > 0 {
      ErrorsGrow(es, mu, n - 1);
      assert LinkedAt(es, mu, n - 1);
      StageIsMore(es(n - 1), mu, es(n));
      forall b ensures AtMostAt(es(0), es(n), b) {
        assert AtMostAt(es(0), es(n - 1), b) && AtMostAt(es(n - 1), es(n), b);
      }
    }
  }

  lemma PlainStep(fl: real -> real, mu: Error, es: Errors, n: nat, s: real, S: real, B: real, v: real, w: real, b: real,
                  s': real, S': real, B': real)
    requires Unit(fl, mu) && Linked(es, mu) && Near(es(n), s, S, B) && Near(es(0), v, w, b)
    requires s' == fl(s + v) && S' == S + w && B' == B + b
    ensures Near(es(n + 1), s', S', B')
  {
    ErrorsGrow(es, mu, n);
    assert AtMostAt(es(0), es(n), b) && LinkedAt(es, mu, n);
    AdditionStage(fl, mu, es(n), es(n + 1), s, S, B, v, w, b);
  }

  /** The left-to-right sum in rounded arithmetic. */
  function RunningSum(fl: real -> real, xs: seq<real>): real {
    if xs == [] then 0.0 else fl(RunningSum(fl, xs[..|xs| - 1]) + xs[|xs| - 1])
  }

  lemma {:induction false} RunningSumIsLoop(fl: real -> real, xs: seq<real>)
    ensures SumFrom(Rounded(fl), 0.0, xs) == RunningSum(fl, xs)
  {
    if xs != [] { RunningSumIsLoop(fl, xs[..|xs| - 1]); }
  }

  lemma OneMoreTerm(fl: real -> real, mu: Error, es: Errors, vs: seq<real>, ws: seq<real>, bs: seq<real>, n: nat,
                    s: real, S: real, B: real)
    requires Unit(fl, mu) && Linked(es, mu) && |vs| == |ws| == |bs| == n + 1 && Near(es(0), vs[n], ws[n], bs[n])
    requires s == RunningSum(fl, vs[..n]) && S == Sum(ws[..n]) && B == Sum(bs[..n]) && Near(es(n), s, S, B)
    ensures Near(es(n + 1), RunningSum(fl, vs), Sum(ws), Sum(bs))
  {
    var s', S', B' := RunningSum(fl, vs), Sum(ws), Sum(bs);
    PlainStep(fl, mu, es, n, s, S, B, vs[n], ws[n], bs[n], s', S', B');
  }

  /** A left-to-right sum costs one rounding per value. */
  lemma {:induction false} PlainStage(fl: real -> real, mu: Error, es: Errors, vs: seq<real>, ws: seq<real>,
                                      bs: seq<real>)
    requires Unit(fl, mu) && Linked(es, mu) && AllNear(es(0), vs, ws, bs)
    ensures Near(es(|vs|), RunningSum(fl, vs), Sum(ws), Sum(bs))
  {
    if vs == [] {
      assert LinkedAt(es, mu, 0) && MonotoneAt(es(0), 0.0, 0.0);
    } else {
      var n := |vs| - 1;
      PlainStage(fl, mu, es, vs[..n], ws[..n], bs[..n]);
      assert Near(es(0), vs[n], ws[n], bs[n]);
      OneMoreTerm(fl, mu, es, vs, ws, bs, n, RunningSum(fl, vs[..n]), Sum(ws[..n]), Sum(bs[..n]));
    }
  }

  /** A factor q after n further relative errors of k. */
  function GrownBy(q: real, k: real, n: nat): real { if n == 0 then q else Grown(GrownBy(q, k, n - 1), k) }

  lemma {:induction false} GrownByIsMore(q: real, k: real, n: nat)
    requires q >= 1.0 && k >= 0.0
    ensures GrownBy(q, k, n) >= 1.0
  {
    if n > 0 {
      GrownByIsMore(q, k, n - 1);
      GrownIsMore(GrownBy(q, k, n - 1), k);
    }
  }

  ghost predicate GrownAt(es: Errors, q: real, k: real, i: nat) { IsProduct(es(i), GrownBy(q, k, i) - 1.0) }

  lemma ErrorAt(es: Errors, mu: Error, u: real, i: nat, q: real, q': real)
    requires Lawful(mu) && IsProduct(mu, u) && u >= 0.0 && q >= 1.0 && q' == Grown(q, u)
    requires es(i) == Times(q - 1.0) && es(i + 1) == Times(q' - 1.0)
    ensures LinkedAt(es, mu, i) && IsProduct(es(i), q - 1.0)
  {
    GrownIsMore(q, u);
    var e := ProductError(q - 1.0);
    var e' := ProductError(q' - 1.0);
    StageOfProducts(e, q, mu, u, e', q');
  }

  /** The errors that grow by one rounding per addition. */
  lemma GrowingErrors(mu: Error, u: real, q: real) returns (es: Errors)
    requires Lawful(mu) && IsProduct(mu, u) && u >= 0.0 && q >= 1.0
    ensures Linked(es, mu) && IsProduct(es(0), q - 1.0) && forall i :: GrownAt(es, q, u, i)
  {
    es := (i: nat) => Times(GrownBy(q, u, i) - 1.0);
    forall i: nat ensures LinkedAt(es, mu, i) && GrownAt(es, q, u, i) {
      GrownByIsMore(q, u, i);
      ErrorAt(es, mu, u, i, GrownBy(q, u, i), GrownBy(q, u, i + 1));
    }
    assert GrownAt(es, q, u, 0);
  }

  /** Terms rounded once, Kahan sums of the chunks, and a plain sum of the results. */
  lemma BlockedStage(fl: real -> real, mu: Error, sum: Summation, more: Error, n: nat, es: Errors,
                     ws: seq<real>, vs: seq<real>, len: nat, parts: seq<real>)
    requires Unit(fl, mu) && Lawful(mu) && Lawful(more) && IsStage(mu, more, es(0)) && Linked(es, mu)
    requires SumsWithin(sum, more, n) && Min(|ws|, len) <= n && RoundedFrom(fl, ws, vs) && len > 0
    requires |parts| == Chunks(|ws|, len) && forall i :: 0 <= i < |parts| ==> parts[i] == sum(Chunk(vs, len, i))
    ensures Near(es(|parts|), SumFrom(Rounded(fl), 0.0, parts), Sum(ws), AbsSum(ws))
  {
    ChunksNear(fl, mu, sum, more, n, es(0), ws, vs, len, |parts|, parts);
    var sums, sizes := ChunkSums(ws, len, |parts|), ChunkSums(Magnitudes(ws), len, |parts|);
    PlainStage(fl, mu, es, parts, sums, sizes);
    RunningSumIsLoop(fl, parts);
    ChunkTotals(ws, len);
  }

  lemma BlockedNear(fl: real -> real, u: real, sum: Summation, more: Error, k: real, n: nat, p: real, q: real,
                    ws: seq<real>, vs: seq<real>, len: nat, parts: seq<real>)
    requires Rounds(fl, u) && Lawful(more) && IsProduct(more, k) && k >= 0.0 && SumsWithin(sum, more, n)
    requires p == 1.0 + u && q == Grown(p, k)
    requires Min(|ws|, len) <= n && RoundedFrom(fl, ws, vs) && len > 0
    requires |parts| == Chunks(|ws|, len) && forall i :: 0 <= i < |parts| ==> parts[i] == sum(Chunk(vs, len, i))
    ensures NearBy(GrownBy(q, u, |parts|), SumFrom(Rounded(fl), 0.0, parts), Sum(ws), AbsSum(ws))
  {
    var mu := FirstError(fl, u, p);
    GrownIsMore(p, k);
    var es := GrowingErrors(mu, u, q);
    StageOfProducts(mu, p, more, k, es(0), q);
    BlockedStage(fl, mu, sum, more, n, es, ws, vs, len, parts);
    assert GrownAt(es, q, u, |parts|);
    NearIsNearBy(es(|parts|), GrownBy(q, u, |parts|), SumFrom(Rounded(fl), 0.0, parts), Sum(ws), AbsSum(ws));
  }

  /** The compensated blocked sum of rounded terms: the factor is (1 + u)(1 + kappa(m)) for chunks of at most m
      terms, times 1 + u for every chunk. */
  lemma CompensatedError(fl: real -> real, u: real, p: real, kappa: Rates, ws: seq<real>, len: nat, m: nat)
    requires Rounds(fl, u) && p == 1.0 + u && AreRates(kappa, u, Deterministic)
    requires len > 0 && m == Min(|ws|, len) && Fits(u, m)
    ensures NearBy(GrownBy(Grown(p, kappa(m)), u, Chunks(|ws|, len)),
      R.Blocked(Rounded(fl), R.Compensated(Rounded(fl)), SummationError.RoundedTerms(fl, ws), len), Sum(ws), AbsSum(ws))
  {
    var vs, c := SummationError.RoundedTerms(fl, ws), Chunks(|ws|, len);
    var parts := R.Parts(R.Compensated(Rounded(fl)), vs, len, c);
    CompensatedParts(fl, vs, len, c, parts);
    var more := ModeSumError(fl, u, Deterministic, kappa, m);
    BlockedNear(fl, u, ModeSum(fl, Deterministic), more, kappa(m), m, p, Grown(p, kappa(m)), ws, vs, len, parts);
  }

  lemma CompensatedParts(fl: real -> real, vs: seq<real>, len: nat, c: nat, parts: seq<real>)
    requires parts == R.Parts(R.Compensated(Rounded(fl)), vs, len, c)
    ensures |parts| == c && forall i :: 0 <= i < c ==> parts[i] == ModeSum(fl, Deterministic)(Chunk(vs, len, i))
  {
    forall i | 0 <= i < c ensures parts[i] == ModeSum(fl, Deterministic)(Chunk(vs, len, i)) {
      R.CompensatedRunIsAccumulator(Rounded(fl), Chunk(vs, len, i));
    }
  }
}
