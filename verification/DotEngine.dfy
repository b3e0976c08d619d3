/** Dot products over all ranks: the local kernel, the deterministic packet
    reduction and the batched `dot_many_into`. */
module DotEngine {
  import opened Arithmetic
  import opened Accumulators
  import opened Basics
  import opened Chunking
  import opened ExactSums
  import P = AllreduceProtocol

  datatype Options = Options(
    mode: Mode,
    singleThreadLocal: bool,
    chunkLen: nat,
    packetWidth: nat,
    rayon: bool)         // the build feature that enables chunked local products

  type Pair<F> = (seq<F>, seq<F>)

  predicate Matched<F>(p: Pair<F>) { |p.0| == |p.1| }

  // ---- local products ------------------------------------------------------

  /** Folding a list of terms the way `mode` prescribes. */
  function Reduce<F>(A: Arith<F>, mode: Mode, xs: seq<F>): F {
    if mode == Fast then SumFrom(A, A.sumStart, xs) else Finish(A, AddAll(A, Start(A, mode), xs))
  }

  /** Sums of nothing and of one term, mode by mode. */
  lemma ShortSums<F>(A: Arith<F>, x: F)
    ensures Reduce(A, Fast, []) == A.sumStart && Reduce(A, Fast, [x]) == A.add(A.sumStart, x)
    ensures Reduce(A, Deterministic, []) == A.zero && Reduce(A, Deterministic, [x]) == A.add(A.zero, A.sub(x, A.zero))
    ensures Reduce(A, DeterministicAccurate, []) == A.add(A.zero, A.zero)
  {
    assert [x][..0] == [];
  }

  function DotSlice<F>(A: Arith<F>, mode: Mode, u: seq<F>, v: seq<F>): F
    requires |u| == |v|
  {
    Reduce(A, mode, Products(A, u, v))
  }

  /** The first k chunks of `xs`, each reduced by `mode`. */
  function Partials<F>(A: Arith<F>, mode: Mode, xs: seq<F>, len: nat, k: nat): seq<F> {
    ChunkMap(c => Reduce(A, mode, c), xs, len, k)
  }

  function DotLocal<F>(A: Arith<F>, o: Options, p: Pair<F>): F
    requires Matched(p)
  {
    if o.mode == Fast || o.singleThreadLocal then DotSlice(A, o.mode, p.0, p.1)
    else DotChunked(A, o, p.0, p.1)
  }

  /** With rayon, chunk products are reduced by `mode` a second time; without it there is one pass. */
  function DotChunked<F>(A: Arith<F>, o: Options, u: seq<F>, v: seq<F>): F
    requires |u| == |v|
  {
    var len := Max(o.chunkLen, 1);
    if u == [] then A.zero
    else if o.rayon then
      Reduce(A, o.mode, Partials(A, o.mode, Products(A, u, v), len, Chunks(|u|, len)))
    else DotSlice(A, o.mode, u, v)
  }

  /** The three loops of the local kernels: an iterator sum, or one compensated accumulator. */
  method ReduceAll<F>(A: Arith<F>, mode: Mode, xs: seq<F>) returns (r: F)
    ensures r == Reduce(A, mode, xs)
  {
    if mode == Fast {
      r := A.sumStart;
      for i := 0 to |xs|
        invariant r == SumFrom(A, A.sumStart, xs[..i])
      {
        r := A.add(r, xs[i]);
        assert xs[..i + 1][..i] == xs[..i];
      }
    } else if mode == Deterministic {
      var acc := new Kahan(A);
      for i := 0 to |xs|
        invariant acc.Value() == AddAll(A, Start(A, mode), xs[..i])
      {
        acc.Push(xs[i]);
        assert xs[..i + 1][..i] == xs[..i];
      }
      r := acc.sum;
    } else {
      var acc := new DD(A);
      for i := 0 to |xs|
        invariant acc.Value() == AddAll(A, Start(A, mode), xs[..i])
      {
        acc.Push(xs[i]);
        assert xs[..i + 1][..i] == xs[..i];
      }
      r := A.add(acc.hi, acc.lo);
    }
    assert xs[..|xs|] == xs;
  }

  method DotLocalSlice<F>(A: Arith<F>, u: seq<F>, v: seq<F>, mode: Mode) returns (r: F)
    requires |u| == |v|
    ensures r == DotSlice(A, mode, u, v)
  {
    r := ReduceAll(A, mode, Products(A, u, v));
  }

  lemma ChunkOfProducts<F>(A: Arith<F>, u: seq<F>, v: seq<F>, len: nat, i: nat)
    requires |u| == |v|
    ensures Chunk(Products(A, u, v), len, i) == Products(A, Chunk(u, len, i), Chunk(v, len, i))
  {
  }

  method DotLocalDeterministicParallel<F>(A: Arith<F>, o: Options, u: seq<F>, v: seq<F>) returns (r: F)
    requires |u| == |v|
    ensures r == DotChunked(A, o, u, v)
  {
    if |u| == 0 { return A.zero; }
    if !o.rayon {
      r := DotLocalSlice(A, u, v, o.mode);
      return;
    }
    var len := Max(o.chunkLen, 1);
    var n := (|u| + len - 1) / len;
    var partials: seq<F> := [];
    for i := 0 to n
      invariant partials == Partials(A, o.mode, Products(A, u, v), len, i)
    {
      CutIsProduct(|u|, len, i);
      CutIsProduct(|u|, len, i + 1);
      var lo, hi := Min(i * len, |u|), Min((i + 1) * len, |u|);
      var d := DotLocalSlice(A, u[lo..hi], v[lo..hi], o.mode);
      ChunkOfProducts(A, u, v, len, i);
      partials := partials + [d];
    }
    r := ReduceAll(A, o.mode, partials);
  }

  method LocalProduct<F>(A: Arith<F>, o: Options, p: Pair<F>) returns (r: F)
    requires Matched(p)
    ensures r == DotLocal(A, o, p)
  {
    if o.mode == Fast || o.singleThreadLocal {
      r := DotLocalSlice(A, p.0, p.1, o.mode);
    } else {
      r := DotLocalDeterministicParallel(A, o, p.0, p.1);
    }
  }

  // ---- all ranks -----------------------------------------------------------

  /** What every rank passes to the same `dot_many_into` call.  `fastSum` is the
      communicator's own sum of one value per rank, used in Fast mode only. */
  datatype World<!F> = World(A: Arith<F>, o: Options, pairs: seq<seq<Pair<F>>>, fastSum: seq<F> -> F)

  ghost predicate WellFormed<F>(w: World<F>) {
    |w.pairs| > 0 && forall q :: 0 <= q < |w.pairs| ==>
      |w.pairs[q]| == |w.pairs[0]| && (forall i :: 0 <= i < |w.pairs[q]| ==> Matched(w.pairs[q][i]))
  }

  function LocalDots<F>(w: World<F>, q: nat): seq<F>
    requires q < |w.pairs| && forall i :: 0 <= i < |w.pairs[q]| ==> Matched(w.pairs[q][i])
  {
    seq(|w.pairs[q]|, i requires 0 <= i < |w.pairs[q]| => DotLocal(w.A, w.o, w.pairs[q][i]))
  }

  ghost predicate SameWidth<F>(ps: seq<Packet<F>>) {
    |ps| > 0 && forall q :: 0 <= q < |ps| ==> |ps[q]| == |ps[0]|
  }

  /** What one collective call returns on every rank, given the packet of each rank. */
  function AllreduceDet<F>(w: World<F>, ps: seq<Packet<F>>): (r: Packet<F>)
    requires SameWidth(ps)
    ensures |r| == |ps[0]|
  {
    if w.o.mode == Fast then seq(|ps[0]|, i requires 0 <= i < |ps[0]| => w.fastSum(Lane(ps, i)))
    else if |ps| == 1 then ps[0]
    else FinishP(w.A, AddAllP(w.A, StartP(w.A, w.o.mode, |ps[0]|), ps))
  }

  /** Rank 0's loop over the gathered packets, in rank order. */
  method FoldPackets<F>(A: Arith<F>, mode: Mode, ps: seq<Packet<F>>) returns (total: Packet<F>)
    requires SameWidth(ps)
    ensures total == FinishP(A, AddAllP(A, StartP(A, mode, |ps[0]|), ps))
  {
    if mode == DeterministicAccurate {
      var acc := new DDP(A, |ps[0]|);
      for q := 0 to |ps|
        invariant acc.Valid() && fresh(acc.hi) && fresh(acc.lo)
        invariant acc.Value() == AddAllP(A, StartP(A, mode, |ps[0]|), ps[..q])
      {
        acc.Push(ps[q]);
        assert ps[..q + 1][..q] == ps[..q];
      }
      total := FinishP(A, acc.Value());
    } else {
      var acc := new KahanP(A, |ps[0]|);
      for q := 0 to |ps|
        invariant acc.Valid() && fresh(acc.sum) && fresh(acc.c)
        invariant acc.Value() == AddAllP(A, StartP(A, mode, |ps[0]|), ps[..q])
      {
        acc.Push(ps[q]);
        assert ps[..q + 1][..q] == ps[..q];
      }
      total := FinishP(A, acc.Value());
    }
    assert ps[..|ps|] == ps;
  }

  function Column<F>(w: World<F>, i: nat): seq<Packet<F>>
    requires WellFormed(w) && i < |w.pairs[0]|
  {
    seq(|w.pairs|, q requires 0 <= q < |w.pairs| => [LocalDots(w, q)[i]])
  }

  /** The value `dot` returns on every rank for pair i alone. */
  function Dot<F>(w: World<F>, i: nat): F
    requires WellFormed(w) && i < |w.pairs[0]|
  {
    AllreduceDet(w, Column(w, i))[0]
  }

  function Dots<F>(w: World<F>): seq<F>
    requires WellFormed(w)
  {
    seq(|w.pairs[0]|, i requires 0 <= i < |w.pairs[0]| => Dot(w, i))
  }

  /** The width-1 packets that carry lane i of each packet. */
  function Single<F>(ps: seq<Packet<F>>, i: nat): (r: seq<Packet<F>>)
    requires SameWidth(ps) && i < |ps[0]|
    ensures SameWidth(r)
  {
    seq(|ps|, q requires 0 <= q < |ps| => [ps[q][i]])
  }

  /** A collective on packets is the same collective on each lane by itself. */
  lemma AllreduceLane<F>(w: World<F>, ps: seq<Packet<F>>, i: nat)
    requires SameWidth(ps) && i < |ps[0]|
    ensures AllreduceDet(w, ps)[i] == AllreduceDet(w, Single(ps, i))[0]
  {
    var one := Single(ps, i);
    assert Lane(one, 0) == Lane(ps, i);
    if w.o.mode != Fast && |ps| > 1 {
      LanesAreIndependent(w.A, w.o.mode, ps, |ps[0]|, i);
      LanesAreIndependent(w.A, w.o.mode, one, 1, 0);
    }
  }

  /** The packets of the k-th batch of `width` results. */
  function Batch<F>(w: World<F>, width: nat, k: nat): (ps: seq<Packet<F>>)
    requires WellFormed(w)
    ensures SameWidth(ps)
  {
    seq(|w.pairs|, q requires 0 <= q < |w.pairs| => Chunk(LocalDots(w, q), width, k))
  }

  lemma BatchLane<F>(w: World<F>, width: nat, k: nat, i: nat)
    requires WellFormed(w) && i < |Batch(w, width, k)[0]|
    ensures Single(Batch(w, width, k), i) == Column(w, Cut(|w.pairs[0]|, width, k) + i)
  {
  }

  /** Batching does not change any result. */
  lemma BatchIsDots<F>(w: World<F>, width: nat, k: nat)
    requires WellFormed(w)
    ensures AllreduceDet(w, Batch(w, width, k)) == Chunk(Dots(w), width, k)
  {
    var ps := Batch(w, width, k);
    forall i | 0 <= i < |ps[0]| ensures AllreduceDet(w, ps)[i] == Chunk(Dots(w), width, k)[i] {
      AllreduceLane(w, ps, i);
      BatchLane(w, width, k, i);
    }
  }

  /** The packets of the collective that this rank enters with `mine` while the
      others enter with their local products at the same places. */
  function Entered<F>(w: World<F>, rank: nat, mine: Packet<F>, idx: nat): seq<Packet<F>>
    requires WellFormed(w) && rank < |w.pairs| && idx + |mine| <= |w.pairs[0]|
  {
    seq(|w.pairs|, q requires 0 <= q < |w.pairs| => if q == rank then mine else LocalDots(w, q)[idx..idx + |mine|])
  }

  /** The collective on the results from `idx` on, up to `width` of them, returns their `dot` values. */
  lemma CollectiveAt<F>(w: World<F>, rank: nat, width: nat, k: nat, idx: nat, mine: Packet<F>)
    requires WellFormed(w) && rank < |w.pairs| && idx == Cut(|w.pairs[0]|, width, k)
    requires |mine| == Min(|w.pairs[0]| - idx, width) && mine == LocalDots(w, rank)[idx..idx + |mine|]
    ensures idx + |mine| == Cut(|w.pairs[0]|, width, k + 1)
    ensures SameWidth(Entered(w, rank, mine, idx))
    ensures AllreduceDet(w, Entered(w, rank, mine, idx)) == Dots(w)[idx..idx + |mine|]
  {
    assert Entered(w, rank, mine, idx) == Batch(w, width, k);
    BatchIsDots(w, width, k);
  }

  datatype DotStatus = Done | SlotMismatch | LengthMismatch(pair: nat)

  /** The checks that a rank makes of its own arguments. */
  ghost predicate ChecksPass<F>(pairs: seq<Pair<F>>, slots: nat) {
    slots == |pairs| && forall i :: 0 <= i < |pairs| ==> Matched(pairs[i])
  }

  /** `dot_many_into` on one rank.  A status other than `Done` stands for a panic.  A collective returns only
      once all ranks have entered it, so a rank that passes its own checks needs the others to pass theirs. */
  method DotManyInto<F>(w: World<F>, rank: nat, out: array<F>) returns (st: DotStatus)
    requires rank < |w.pairs| && (ChecksPass(w.pairs[rank], out.Length) ==> WellFormed(w))
    modifies out
    ensures st == SlotMismatch <==> out.Length != |w.pairs[rank]|
    ensures st == SlotMismatch ==> out[..] == old(out[..])
    ensures st == Done <==> ChecksPass(w.pairs[rank], out.Length)
    ensures st == Done ==> out[..] == Dots(w)
    ensures st.LengthMismatch? ==> st.pair < |w.pairs[rank]| && !Matched(w.pairs[rank][st.pair])
    ensures st.LengthMismatch? ==> forall i :: 0 <= i < st.pair ==> Matched(w.pairs[rank][i])
    ensures st.LengthMismatch? ==> out[st.pair..] == old(out[st.pair..])
  {
    var pairs := w.pairs[rank];
    if |pairs| != out.Length { return SlotMismatch; }
    for i := 0 to |pairs|
      invariant forall j :: 0 <= j < i ==> Matched(pairs[j]) && out[j] == DotLocal(w.A, w.o, pairs[j])
      invariant out[i..] == old(out[i..])
    {
      if |pairs[i].0| != |pairs[i].1| { return LengthMismatch(i); }
      var d := LocalProduct(w.A, w.o, pairs[i]);
      out[i] := d;
    }
    assert out[..] == LocalDots(w, rank);
    PartlyEnds(w, rank);
    ReduceBatches(w, rank, out);
    st := Done;
  }

  /** The output once the first `idx` slots have been reduced. */
  function Partly<F>(w: World<F>, rank: nat, idx: nat): seq<F>
    requires WellFormed(w) && rank < |w.pairs| && idx <= |w.pairs[0]|
  {
    Dots(w)[..idx] + LocalDots(w, rank)[idx..]
  }

  lemma PartlyEnds<F>(w: World<F>, rank: nat)
    requires WellFormed(w) && rank < |w.pairs|
    ensures Partly(w, rank, 0) == LocalDots(w, rank) && Partly(w, rank, |w.pairs[0]|) == Dots(w)
  {
  }

  /** The batching loop: collectives of `packetWidth` lanes, clamped to 1..4, the last one narrower. */
  method ReduceBatches<F>(w: World<F>, rank: nat, out: array<F>)
    requires WellFormed(w) && rank < |w.pairs| && out.Length == |w.pairs[0]|
    requires out[..] == Partly(w, rank, 0)
    modifies out
    ensures out[..] == Partly(w, rank, out.Length)
  {
    var n, width := out.Length, Min(Max(w.o.packetWidth, 1), 4);
    var idx := 0;
    ghost var k := 0;
    while idx < n
      invariant idx == Cut(n, width, k)
      invariant out[..] == Partly(w, rank, idx)
      decreases n - idx
    {
      var len := Min(n - idx, width);
      ReduceBatch(w, rank, out, idx, len, width, k);
      idx, k := idx + len, k + 1;
    }
  }

  /** One collective of `len` lanes, entered with and overwriting the slots from `idx` on. */
  method ReduceBatch<F>(w: World<F>, rank: nat, out: array<F>, idx: nat, len: nat, ghost width: nat, ghost k: nat)
    requires WellFormed(w) && rank < |w.pairs| && out.Length == |w.pairs[0]|
    requires idx == Cut(out.Length, width, k) && len == Min(out.Length - idx, width)
    requires out[..] == Partly(w, rank, idx)
    modifies out
    ensures idx + len == Cut(out.Length, width, k + 1)
    ensures out[..] == Partly(w, rank, idx + len)
  {
    var packet := out[..][idx..idx + len];
    PartlyAdvances(w, rank, idx, len);
    CollectiveAt(w, rank, width, k, idx, packet);
    var reduced := AllreduceDet(w, Entered(w, rank, packet, idx));
    CopyInto(out, idx, reduced);
  }

  lemma PartlyAdvances<F>(w: World<F>, rank: nat, idx: nat, len: nat)
    requires WellFormed(w) && rank < |w.pairs| && idx + len <= |w.pairs[0]|
    ensures Partly(w, rank, idx)[idx..idx + len] == LocalDots(w, rank)[idx..idx + len]
    ensures Splice(Partly(w, rank, idx), idx, Dots(w)[idx..idx + len]) == Partly(w, rank, idx + len)
  {
  }

  /** `s` with `src` written over it from `idx` on. */
  function Splice<T>(s: seq<T>, idx: nat, src: seq<T>): seq<T>
    requires idx + |src| <= |s|
  {
    s[..idx] + src + s[idx + |src|..]
  }

  method CopyInto<F>(out: array<F>, idx: nat, src: seq<F>)
    requires idx + |src| <= out.Length
    modifies out
    ensures out[..] == Splice(old(out[..]), idx, src)
  {
    forall i | 0 <= i < |src| { out[idx + i] := src[i]; }
  }

  // ---- the protocol delivers these results ----------------------------------

  /** The message-passing run of one `dot_many_into` call: one round per batch. */
  ghost function Protocol<F>(w: World<F>, width: nat, eager: (nat, nat, nat) -> bool): P.Config<Packet<F>, seq<Acc<F>>>
    requires WellFormed(w) && width > 0
  {
    P.Config(
      |w.pairs|,
      Chunks(|w.pairs[0]|, width),
      (q: nat, k: nat) => if q < |w.pairs| then Chunk(LocalDots(w, q), width, k) else [],
      (k: nat) => StartP(w.A, w.o.mode, |Chunk(LocalDots(w, 0), width, k)|),
      (acc, x) => AddP(w.A, acc, x),
      acc => FinishP(w.A, acc),
      eager)
  }

  lemma {:induction false} ProtocolFold<F>(w: World<F>, width: nat, eager: (nat, nat, nat) -> bool, k: nat, n: nat)
    requires WellFormed(w) && width > 0 && n <= |w.pairs|
    ensures var ps := Batch(w, width, k);
      P.Fold(Protocol(w, width, eager), k, n) == AddAllP(w.A, StartP(w.A, w.o.mode, |ps[0]|), ps[..n])
  {
    if n > 0 {
      ProtocolFold(w, width, eager, k, n - 1);
      assert Batch(w, width, k)[..n][..n - 1] == Batch(w, width, k)[..n - 1];
    }
  }

  lemma ProtocolTotal<F>(w: World<F>, width: nat, eager: (nat, nat, nat) -> bool, k: nat)
    requires WellFormed(w) && width > 0 && w.o.mode != Fast
    ensures P.Total(Protocol(w, width, eager), k) == Chunk(Dots(w), width, k)
  {
    var ps := Batch(w, width, k);
    BatchIsDots(w, width, k);
    ProtocolFold(w, width, eager, k, |w.pairs|);
    assert ps[..|w.pairs|] == ps;
  }

  /** End to end, in both deterministic modes: however the messages interleave, whichever
      sends are buffered, and however wide the packets are, every rank of a maximal run has
      received exactly the values of the separate `dot` calls, in order. */
  lemma EveryRankReceivesTheDots<F>(w: World<F>, width: nat, eager: (nat, nat, nat) -> bool,
                                    sched: seq<nat>, s: P.State<Packet<F>, seq<Acc<F>>>, r: nat)
    requires WellFormed(w) && width > 0 && w.o.mode != Fast && r < |w.pairs|
    requires P.Run(Protocol(w, width, eager), P.Initial(Protocol(w, width, eager)), sched, s)
    requires P.Stuck(Protocol(w, width, eager), s)
    ensures Concat(s[r].log) == Dots(w)
  {
    var c := Protocol(w, width, eager);
    P.EveryMaximalRunFinishes(c, sched, s);
    forall k: nat | k < c.rounds ensures P.Total(c, k) == Chunk(Dots(w), width, k) {
      ProtocolTotal(w, width, eager, k);
    }
    assert s[r].log == Pieces(Dots(w), width, c.rounds);
    ChunksCover(Dots(w), width);
  }

  // ---- exact arithmetic: every configuration computes the same number --------

  lemma {:induction false} ReduceIsSum(mode: Mode, xs: seq<real>)
    ensures Reduce(Reals(), mode, xs) == Sum(xs)
  {
    if mode == Fast {
      if xs != [] { ReduceIsSum(mode, xs[..|xs| - 1]); }
    } else {
      ExactWithoutRounding(mode, xs);
    }
  }

  lemma AllChunkSums(mode: Mode, xs: seq<real>, len: nat)
    requires len > 0
    ensures Reduce(Reals(), mode, Partials(Reals(), mode, xs, len, Chunks(|xs|, len))) == Sum(xs)
  {
    var sums := Partials(Reals(), mode, xs, len, Chunks(|xs|, len));
    forall i | 0 <= i < |sums| ensures sums[i] == Sum(Chunk(xs, len, i)) { ReduceIsSum(mode, Chunk(xs, len, i)); }
    LastCut(|xs|, len);
    ChunkTotal(xs, len, sums);
    ReduceIsSum(mode, sums);
  }

  lemma LocalDotIsExact(o: Options, p: Pair<real>)
    requires Matched(p)
    ensures DotLocal(Reals(), o, p) == Sum(Products(Reals(), p.0, p.1))
  {
    var xs := Products(Reals(), p.0, p.1);
    ReduceIsSum(o.mode, xs);
    AllChunkSums(o.mode, xs, Max(o.chunkLen, 1));
  }

  /** Without rounding, mode, threading, chunk length and the number of ranks do not matter:
      the result is the inner product of the distributed vectors. */
  lemma DotIsGlobalProduct(w: World<real>, i: nat)
    requires WellFormed(w) && i < |w.pairs[0]| && w.A == Reals()
    requires forall xs :: w.fastSum(xs) == Sum(xs)
    ensures Dot(w, i) == Sum(seq(|w.pairs|, q requires 0 <= q < |w.pairs| =>
      Sum(Products(Reals(), w.pairs[q][i].0, w.pairs[q][i].1))))
  {
    var exact := seq(|w.pairs|,
      q requires 0 <= q < |w.pairs| => Sum(Products(Reals(), w.pairs[q][i].0, w.pairs[q][i].1)));
    forall q | 0 <= q < |w.pairs| ensures LocalDots(w, q)[i] == exact[q] { LocalDotIsExact(w.o, w.pairs[q][i]); }
    var ps := Column(w, i);
    assert Lane(ps, 0) == exact;
    if |ps| == 1 {
      assert exact == [exact[0]];
      assert Sum(exact) == Sum(exact[..0]) + exact[0];
    } else if w.o.mode != Fast {
      LanesAreIndependent(Reals(), w.o.mode, ps, 1, 0);
      ExactWithoutRounding(w.o.mode, exact);
    }
  }
}
