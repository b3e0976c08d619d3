/** Scalar arithmetic as a record of operations.  Nothing is assumed about them
    unless a lemma says so: they need be neither associative nor commutative. */
module Arithmetic {
  datatype Arith<!F> = Arith(
    zero: F,
    sumStart: F,         // the value an iterator sum starts from
    add: (F, F) -> F,
    sub: (F, F) -> F,
    mul: (F, F) -> F)

  /** Left-to-right sum of `xs` on top of `acc`. */
  function SumFrom<F>(A: Arith<F>, acc: F, xs: seq<F>): F {
    if xs == [] then acc else A.add(SumFrom(A, acc, xs[..|xs| - 1]), xs[|xs| - 1])
  }

  function Products<F>(A: Arith<F>, u: seq<F>, v: seq<F>): seq<F>
    requires |u| == |v|
  {
    seq(|u|, i requires 0 <= i < |u| => A.mul(u[i], v[i]))
  }

  /** Exact real arithmetic. */
  function Reals(): Arith<real> {
    Arith(0.0, 0.0, (a, b) => a + b, (a, b) => a - b, (a, b) => a * b)
  }

  /** Real arithmetic in which every operation is followed by rounding. */
  function Rounded(fl: real -> real): Arith<real> {
    Arith(0.0, 0.0, (a: real, b: real) => fl(a + b), (a: real, b: real) => fl(a - b), (a: real, b: real) => fl(a * b))
  }

  function Sum(xs: seq<real>): real {
    if xs == [] then 0.0 else Sum(xs[..|xs| - 1]) + xs[|xs| - 1]
  }
}

/** The compensated accumulators, one value at a time and one packet at a time. */
module Accumulators {
  import opened Arithmetic

  datatype Mode = Fast | Deterministic | DeterministicAccurate

  /** The state of one running sum: Kahan's (sum, c) or a double-double (hi, lo). */
  datatype Acc<F> = KahanAcc(sum: F, c: F) | DDAcc(hi: F, lo: F)

  function Start<F>(A: Arith<F>, mode: Mode): Acc<F> {
    if mode == DeterministicAccurate then DDAcc(A.zero, A.zero) else KahanAcc(A.zero, A.zero)
  }

  function Add<F>(A: Arith<F>, acc: Acc<F>, x: F): Acc<F> {
    match acc
    case KahanAcc(sum, c) =>
      var y := A.sub(x, c);
      var t := A.add(sum, y);
      KahanAcc(t, A.sub(A.sub(t, sum), y))
    case DDAcc(hi, lo) =>
      var s := A.add(hi, x);
      var z := A.sub(s, hi);
      var e := A.add(A.add(A.sub(hi, A.sub(s, z)), A.sub(x, z)), lo);
      var hi' := A.add(s, e);
      DDAcc(hi', A.sub(e, A.sub(hi', s)))
  }

  function Finish<F>(A: Arith<F>, acc: Acc<F>): F {
    match acc
    case KahanAcc(sum, _) => sum
    case DDAcc(hi, lo) => A.add(hi, lo)
  }

  function AddAll<F>(A: Arith<F>, acc: Acc<F>, xs: seq<F>): Acc<F> {
    if xs == [] then acc else Add(A, AddAll(A, acc, xs[..|xs| - 1]), xs[|xs| - 1])
  }

  // ---- the scalar accumulators as objects --------------------------------

  class Kahan<F> {
    const A: Arith<F>
    var sum: F
    var c: F

    function Value(): Acc<F>
      reads this
    {
      KahanAcc(sum, c)
    }

    constructor (A: Arith<F>)
      ensures this.A == A && Value() == Start(A, Deterministic)
    {
      this.A, sum, c := A, A.zero, A.zero;
    }

    method Push(x: F)
      modifies this
      ensures Value() == Add(A, old(Value()), x)
    {
      var y := A.sub(x, c);
      var t := A.add(sum, y);
      c := A.sub(A.sub(t, sum), y);
      sum := t;
    }
  }

  class DD<F> {
    const A: Arith<F>
    var hi: F
    var lo: F

    function Value(): Acc<F>
      reads this
    {
      DDAcc(hi, lo)
    }

    constructor (A: Arith<F>)
      ensures this.A == A && Value() == Start(A, DeterministicAccurate)
    {
      this.A, hi, lo := A, A.zero, A.zero;
    }

    method Push(x: F)
      modifies this
      ensures Value() == Add(A, old(Value()), x)
    {
      var s := A.add(hi, x);
      var z := A.sub(s, hi);
      var e := A.add(A.add(A.sub(hi, A.sub(s, z)), A.sub(x, z)), lo);
      hi := A.add(s, e);
      lo := A.sub(e, A.sub(hi, s));
    }
  }

  // ---- packets -------------------------------------------------------------

  type Packet<F> = seq<F>

  function StartP<F>(A: Arith<F>, mode: Mode, width: nat): seq<Acc<F>> {
    seq(width, _ => Start(A, mode))
  }

  function AddP<F>(A: Arith<F>, acc: seq<Acc<F>>, x: Packet<F>): seq<Acc<F>> {
    seq(|acc|, i requires 0 <= i < |acc| => if i < |x| then Add(A, acc[i], x[i]) else acc[i])
  }

  function FinishP<F>(A: Arith<F>, acc: seq<Acc<F>>): Packet<F> {
    seq(|acc|, i requires 0 <= i < |acc| => Finish(A, acc[i]))
  }

  function AddAllP<F>(A: Arith<F>, acc: seq<Acc<F>>, xs: seq<Packet<F>>): (r: seq<Acc<F>>)
    ensures |r| == |acc|
  {
    if xs == [] then acc else AddP(A, AddAllP(A, acc, xs[..|xs| - 1]), xs[|xs| - 1])
  }

  function Lane<F>(xs: seq<Packet<F>>, i: nat): seq<F>
    requires forall q :: 0 <= q < |xs| ==> i < |xs[q]|
  {
    seq(|xs|, q requires 0 <= q < |xs| => xs[q][i])
  }

  class KahanP<F> {
    const A: Arith<F>
    const sum: array<F>
    const c: array<F>

    ghost predicate Valid()
    {
      sum != c && sum.Length == c.Length
    }

    function Value(): seq<Acc<F>>
      requires Valid()
      reads sum, c
    {
      seq(sum.Length, i requires 0 <= i < sum.Length reads sum, c => KahanAcc(sum[i], c[i]))
    }

    constructor (A: Arith<F>, width: nat)
      ensures Valid() && fresh(sum) && fresh(c) && this.A == A
      ensures Value() == StartP(A, Deterministic, width)
    {
      this.A := A;
      sum := new F[width](_ => A.zero);
      c := new F[width](_ => A.zero);
    }

    method Push(x: Packet<F>)
      requires Valid() && |x| == sum.Length
      modifies sum, c
      ensures Value() == AddP(A, old(Value()), x)
    {
      for i := 0 to sum.Length
        invariant forall j :: 0 <= j < i ==> KahanAcc(sum[j], c[j]) == Add(A, old(Value())[j], x[j])
        invariant forall j :: i <= j < sum.Length ==> KahanAcc(sum[j], c[j]) == old(Value())[j]
      {
        var y := A.sub(x[i], c[i]);
        var t := A.add(sum[i], y);
        c[i] := A.sub(A.sub(t, sum[i]), y);
        sum[i] := t;
      }
    }
  }

  class DDP<F> {
    const A: Arith<F>
    const hi: array<F>
    const lo: array<F>

    ghost predicate Valid()
    {
      hi != lo && hi.Length == lo.Length
    }

    function Value(): seq<Acc<F>>
      requires Valid()
      reads hi, lo
    {
      seq(hi.Length, i requires 0 <= i < hi.Length reads hi, lo => DDAcc(hi[i], lo[i]))
    }

    constructor (A: Arith<F>, width: nat)
      ensures Valid() && fresh(hi) && fresh(lo) && this.A == A
      ensures Value() == StartP(A, DeterministicAccurate, width)
    {
      this.A := A;
      hi := new F[width](_ => A.zero);
      lo := new F[width](_ => A.zero);
    }

    method Push(x: Packet<F>)
      requires Valid() && |x| == hi.Length
      modifies hi, lo
      ensures Value() == AddP(A, old(Value()), x)
    {
      for i := 0 to hi.Length
        invariant forall j :: 0 <= j < i ==> DDAcc(hi[j], lo[j]) == Add(A, old(Value())[j], x[j])
        invariant forall j :: i <= j < hi.Length ==> DDAcc(hi[j], lo[j]) == old(Value())[j]
      {
        var s := A.add(hi[i], x[i]);
        var z := A.sub(s, hi[i]);
        var e := A.add(A.add(A.sub(hi[i], A.sub(s, z)), A.sub(x[i], z)), lo[i]);
        hi[i] := A.add(s, e);
        lo[i] := A.sub(e, A.sub(hi[i], s));
      }
    }
  }

  /** Each lane of a packet accumulator is the scalar accumulator run on that lane alone,
      however wide the packets are. */
  lemma {:induction false} LanesAreIndependent<F>(A: Arith<F>, mode: Mode, xs: seq<Packet<F>>, width: nat, i: nat)
    requires i < width && forall q :: 0 <= q < |xs| ==> |xs[q]| == width
    ensures AddAllP(A, StartP(A, mode, width), xs)[i] == AddAll(A, Start(A, mode), Lane(xs, i))
  {
    if xs != [] {
      var n := |xs| - 1;
      LanesAreIndependent(A, mode, xs[..n], width, i);
      assert Lane(xs, i)[..n] == Lane(xs[..n], i);
    }
  }

  // ---- exact arithmetic ----------------------------------------------------

  /** Without rounding the compensation terms vanish: Kahan's c and the low part stay 0,
      and both accumulators hold the plain sum. */
  lemma {:induction false} ExactWithoutRounding(mode: Mode, xs: seq<real>)
    ensures AddAll(Reals(), Start(Reals(), mode), xs) ==
      if mode == DeterministicAccurate then DDAcc(Sum(xs), 0.0) else KahanAcc(Sum(xs), 0.0)
  {
    if xs != [] { ExactWithoutRounding(mode, xs[..|xs| - 1]); }
  }
}
