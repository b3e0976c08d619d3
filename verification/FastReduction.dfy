/** The Fast path: chunks of any length, combined along any tree that keeps their order. */
module FastReduction {
  import opened Arithmetic
  import opened Chunking
  import opened ReproKernels
  import opened SummationTrees

  lemma {:induction false} ChunksAddUp<F(!new)>(A: Arith<F>, ts: seq<F>, len: nat, k: nat)
    requires Monoid(A)
    ensures SumFrom(A, A.zero, Parts(Plain(A), ts, len, k)) == SumFrom(A, A.zero, ts[..Cut(|ts|, len, k)])
  {
    if k > 0 {
      var before, chunk := ts[..Cut(|ts|, len, k - 1)], Chunk(ts, len, k - 1);
      ChunksAddUp(A, ts, len, k - 1);
      PartsGrow(A, Plain(A), ts, len, k - 1);
      PlainRunIsLoop(A, chunk);
      SumSplits(A, before, chunk);
      assert ts[..Cut(|ts|, len, k)] == before + chunk;
    }
  }

  /** Where addition is associative with identity zero, the Fast result is that of the deterministic
      kernels, whatever the chunk lengths and the tree. */
  lemma FastIsBlocked<F(!new)>(A: Arith<F>, ts: seq<F>, chunk: nat, t: Tree, len: nat)
    requires Monoid(A) && chunk > 0 && len > 0 && InOrder(t, Chunks(|ts|, chunk))
    ensures Value(A.add, A.zero, t, Parts(Plain(A), ts, chunk, Chunks(|ts|, chunk))) == Blocked(A, Plain(A), ts, len)
  {
    AnyTreeIsTheLoop(A, t, Parts(Plain(A), ts, chunk, Chunks(|ts|, chunk)));
    LastCut(|ts|, chunk);
    LastCut(|ts|, len);
    ChunksAddUp(A, ts, chunk, Chunks(|ts|, chunk));
    ChunksAddUp(A, ts, len, Chunks(|ts|, len));
    assert ts[..|ts|] == ts;
  }

  /** The terms of the Fast norm, abs() squared, and of the others, abs2(). */
  function SquaredMagnitudes<Z>(abs: Z -> real, zs: seq<Z>): seq<real> {
    seq(|zs|, i requires 0 <= i < |zs| => abs(zs[i]) * abs(zs[i]))
  }

  function Abs2Terms<Z>(abs2: Z -> real, zs: seq<Z>): seq<real> { seq(|zs|, i requires 0 <= i < |zs| => abs2(zs[i])) }

  ghost predicate SquaresTo<Z>(abs: Z -> real, abs2: Z -> real, z: Z) { abs(z) * abs(z) == abs2(z) }

  /** Over exact reals, where abs() squares to abs2(), the Fast norm is the deterministic one. */
  lemma FastNormIsBlocked<Z>(abs: Z -> real, abs2: Z -> real, zs: seq<Z>, chunk: nat, t: Tree, len: nat)
    requires chunk > 0 && len > 0 && InOrder(t, Chunks(|zs|, chunk))
    requires forall i :: 0 <= i < |zs| ==> SquaresTo(abs, abs2, zs[i])
    ensures Value(Reals().add, 0.0, t, Parts(Plain(Reals()), SquaredMagnitudes(abs, zs), chunk, Chunks(|zs|, chunk))) ==
      Blocked(Reals(), Plain(Reals()), Abs2Terms(abs2, zs), len)
  {
    forall i | 0 <= i < |zs| ensures SquaredMagnitudes(abs, zs)[i] == Abs2Terms(abs2, zs)[i] {
      assert SquaresTo(abs, abs2, zs[i]);
    }
    assert SquaredMagnitudes(abs, zs) == Abs2Terms(abs2, zs);
    forall a, b, c ensures AssociativeAt(Reals(), a, b, c) {}
    forall a ensures IdentityAt(Reals(), a) {}
    FastIsBlocked(Reals(), Abs2Terms(abs2, zs), chunk, t, len);
  }
}
