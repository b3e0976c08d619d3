/** Local dot products and squared norms with fixed chunks of B = 2^14 terms.
    `term(j)` is conj(x[j]) * y[j] in the dot kernels and |x[j]|^2 in the norm
    kernels; those are the only places where the two differ.  The additions are
    uninterpreted, so equal results here are equal bit for bit. */
module ReproKernels {
  import opened Accumulators
  import opened Arithmetic
  import opened Basics
  import opened Chunking

  const REPRO_CHUNK: nat := 16384

  /** How one chunk is accumulated: a plain sum, or compensated sums (one per real component). */
  datatype Kernel<!F, !A> = Kernel(start: A, step: (A, F) -> A, out: A -> F)

  function Plain<F>(A: Arith<F>): Kernel<F, F> { Kernel(A.zero, A.add, (x: F) => x) }

  /** The compensated kernel: one Kahan accumulator per chunk. */
  function Compensated<F>(A: Arith<F>): Kernel<F, Acc<F>> {
    Kernel(Start(A, Deterministic), (acc: Acc<F>, x: F) => Add(A, acc, x), (acc: Acc<F>) => Finish(A, acc))
  }

  function Run<F, S>(k: Kernel<F, S>, xs: seq<F>): S {
    if xs == [] then k.start else k.step(Run(k, xs[..|xs| - 1]), xs[|xs| - 1])
  }

  lemma {:induction false} PlainRunIsLoop<F>(A: Arith<F>, xs: seq<F>)
    ensures Run(Plain(A), xs) == SumFrom(A, A.zero, xs)
  {
    if xs != [] { PlainRunIsLoop(A, xs[..|xs| - 1]); }
  }

  lemma {:induction false} CompensatedRunIsAccumulator<F>(A: Arith<F>, xs: seq<F>)
    ensures Run(Compensated(A), xs) == AddAll(A, Start(A, Deterministic), xs)
  {
    if xs != [] { CompensatedRunIsAccumulator(A, xs[..|xs| - 1]); }
  }

  function Terms<F>(term: nat -> F, n: nat): seq<F> { seq(n, i requires 0 <= i => term(i)) }

  function Parts<F, S>(k: Kernel<F, S>, ts: seq<F>, len: nat, n: nat): seq<F> {
    ChunkMap(c => k.out(Run(k, c)), ts, len, n)
  }

  /** The specification of every chunked kernel: chunk results added left to right from zero. */
  function Blocked<F, S>(A: Arith<F>, k: Kernel<F, S>, ts: seq<F>, len: nat): F
    requires len > 0
  {
    SumFrom(A, A.zero, Parts(k, ts, len, Chunks(|ts|, len)))
  }

  /** Real and imaginary parts add up separately. */
  function ComplexArith<F>(A: Arith<F>): Arith<Complex<F>> {
    Arith(Complex(A.zero, A.zero), Complex(A.sumStart, A.sumStart),
      (x: Complex<F>, y: Complex<F>) => Complex(A.add(x.re, y.re), A.add(x.im, y.im)),
      (x: Complex<F>, y: Complex<F>) => Complex(A.sub(x.re, y.re), A.sub(x.im, y.im)),
      (x: Complex<F>, y: Complex<F>) =>
        Complex(A.sub(A.mul(x.re, y.re), A.mul(x.im, y.im)), A.add(A.mul(x.re, y.im), A.mul(x.im, y.re))))
  }

  /** The compensated kernel of complex terms: two Kahan accumulators per chunk. */
  function CompensatedComplex<F>(A: Arith<F>): Kernel<Complex<F>, (Acc<F>, Acc<F>)> {
    Kernel((Start(A, Deterministic), Start(A, Deterministic)),
      (acc: (Acc<F>, Acc<F>), z: Complex<F>) => (Add(A, acc.0, z.re), Add(A, acc.1, z.im)),
      (acc: (Acc<F>, Acc<F>)) => Complex(Finish(A, acc.0), Finish(A, acc.1)))
  }

  function Re<F>(zs: seq<Complex<F>>): seq<F> { seq(|zs|, i requires 0 <= i < |zs| => zs[i].re) }

  function Im<F>(zs: seq<Complex<F>>): seq<F> { seq(|zs|, i requires 0 <= i < |zs| => zs[i].im) }

  lemma {:induction false} ComplexRun<F>(A: Arith<F>, zs: seq<Complex<F>>)
    ensures Run(CompensatedComplex(A), zs) == (Run(Compensated(A), Re(zs)), Run(Compensated(A), Im(zs)))
  {
    if zs != [] {
      var n := |zs| - 1;
      ComplexRun(A, zs[..n]);
      assert Re(zs)[..n] == Re(zs[..n]) && Im(zs)[..n] == Im(zs[..n]);
    }
  }

  lemma {:induction false} ComplexSum<F>(A: Arith<F>, zs: seq<Complex<F>>)
    ensures SumFrom(ComplexArith(A), Complex(A.zero, A.zero), zs) ==
      Complex(SumFrom(A, A.zero, Re(zs)), SumFrom(A, A.zero, Im(zs)))
  {
    if zs != [] {
      var n := |zs| - 1;
      ComplexSum(A, zs[..n]);
      assert Re(zs)[..n] == Re(zs[..n]) && Im(zs)[..n] == Im(zs[..n]);
    }
  }

  lemma PartsOfSlice<F>(zs: seq<Complex<F>>, lo: nat, hi: nat)
    requires lo <= hi <= |zs|
    ensures Re(zs[lo..hi]) == Re(zs)[lo..hi] && Im(zs[lo..hi]) == Im(zs)[lo..hi]
  {
  }

  lemma ComplexChunk<F>(A: Arith<F>, zs: seq<Complex<F>>, len: nat, i: nat)
    ensures Run(CompensatedComplex(A), Chunk(zs, len, i)) ==
      (Run(Compensated(A), Chunk(Re(zs), len, i)), Run(Compensated(A), Chunk(Im(zs), len, i)))
  {
    ComplexRun(A, Chunk(zs, len, i));
    CutMonotone(|zs|, len, i, i + 1);
    PartsOfSlice(zs, Cut(|zs|, len, i), Cut(|zs|, len, i + 1));
  }

  lemma ComplexPart<F>(A: Arith<F>, zs: seq<Complex<F>>, len: nat, n: nat, i: nat)
    requires i < n
    ensures Parts(CompensatedComplex(A), zs, len, n)[i] ==
      Complex(Parts(Compensated(A), Re(zs), len, n)[i], Parts(Compensated(A), Im(zs), len, n)[i])
  {
    ComplexChunk(A, zs, len, i);
  }

  lemma ComplexParts<F>(A: Arith<F>, zs: seq<Complex<F>>, len: nat, n: nat, parts: seq<Complex<F>>)
    requires parts == Parts(CompensatedComplex(A), zs, len, n)
    ensures Re(parts) == Parts(Compensated(A), Re(zs), len, n)
    ensures Im(parts) == Parts(Compensated(A), Im(zs), len, n)
  {
    forall i | 0 <= i < n
      ensures parts[i] == Complex(Parts(Compensated(A), Re(zs), len, n)[i], Parts(Compensated(A), Im(zs), len, n)[i])
    {
      ComplexPart(A, zs, len, n, i);
    }
  }

  /** The compensated kernel of complex terms is the real one on real and on imaginary parts. */
  lemma ComplexIsComponentwise<F>(A: Arith<F>, zs: seq<Complex<F>>, len: nat)
    requires len > 0
    ensures Blocked(ComplexArith(A), CompensatedComplex(A), zs, len) ==
      Complex(Blocked(A, Compensated(A), Re(zs), len), Blocked(A, Compensated(A), Im(zs), len))
  {
    var parts := Parts(CompensatedComplex(A), zs, len, Chunks(|zs|, len));
    ComplexParts(A, zs, len, Chunks(|zs|, len), parts);
    ComplexSum(A, parts);
  }

  lemma PartsGrow<F, S>(A: Arith<F>, k: Kernel<F, S>, ts: seq<F>, len: nat, n: nat)
    ensures Parts(k, ts, len, n + 1) == Parts(k, ts, len, n) + [k.out(Run(k, Chunk(ts, len, n)))]
    ensures SumFrom(A, A.zero, Parts(k, ts, len, n + 1)) ==
      A.add(SumFrom(A, A.zero, Parts(k, ts, len, n)), k.out(Run(k, Chunk(ts, len, n))))
  {
    assert Parts(k, ts, len, n + 1)[..n] == Parts(k, ts, len, n);
  }

  /** Restricting one chunk to its first m terms. */
  lemma ChunkPrefix<F, S>(k: Kernel<F, S>, ts: seq<F>, lo: nat, m: nat)
    requires lo <= m < |ts|
    ensures Run(k, ts[lo..m + 1]) == k.step(Run(k, ts[lo..m]), ts[m])
  {
    assert ts[lo..m + 1][..m - lo] == ts[lo..m];
  }

  /** One chunk's loop. */
  method ChunkLoop<F, S>(k: Kernel<F, S>, term: nat -> F, n: nat, lo: nat, hi: nat) returns (acc: S)
    requires lo <= hi <= n
    ensures acc == Run(k, Terms(term, n)[lo..hi])
  {
    acc := k.start;
    for j := lo to hi
      invariant acc == Run(k, Terms(term, n)[lo..j])
    {
      ChunkPrefix(k, Terms(term, n), lo, j);
      acc := k.step(acc, term(j));
    }
  }

  /** The scalar kernel: block by block, each block added to `acc` as soon as it is complete. */
  method SerialBlocked<F>(A: Arith<F>, term: nat -> F, n: nat) returns (acc: F)
    ensures acc == Blocked(A, Plain(A), Terms(term, n), 16384)
  {
    acc := A.zero;
    var i := 0;
    ghost var ts, c, K := Terms(term, n), 0, Plain(A);
    while i < n
      invariant i == Cut(n, REPRO_CHUNK, c) && c <= Chunks(n, REPRO_CHUNK)
      invariant acc == SumFrom(A, A.zero, Parts(K, ts, REPRO_CHUNK, c))
      decreases n - i
    {
      var end := Min(i + REPRO_CHUNK, n);
      var blk := ChunkLoop(Plain(A), term, n, i, end);
      PartsGrow(A, K, ts, REPRO_CHUNK, c);
      NotPastLast(n, REPRO_CHUNK, c);
      acc := A.add(acc, blk);
      i, c := end, c + 1;
    }
    AtLast(n, REPRO_CHUNK, c);
  }

  lemma {:induction false} CutMonotone(n: nat, len: nat, i: nat, j: nat)
    requires i <= j
    ensures Cut(n, len, i) <= Cut(n, len, j)
  {
    if i < j { CutMonotone(n, len, i, j - 1); }
  }

  lemma NotPastLast(n: nat, len: nat, c: nat)
    requires len > 0 && Cut(n, len, c) < n
    ensures c < Chunks(n, len)
  {
    LastCut(n, len);
    if Chunks(n, len) <= c { CutMonotone(n, len, Chunks(n, len), c); }
  }

  lemma AtLast(n: nat, len: nat, c: nat)
    requires len > 0 && Cut(n, len, c) == n && c <= Chunks(n, len)
    ensures c == Chunks(n, len)
  {
    LastCut(n, len);
    if c < Chunks(n, len) { CutMonotone(n, len, c, Chunks(n, len) - 1); }
  }

  /** The deterministic kernel on one thread: all parts first, then their sum. */
  method SerialParts<F, S>(A: Arith<F>, k: Kernel<F, S>, term: nat -> F, n: nat) returns (total: F)
    ensures total == Blocked(A, k, Terms(term, n), 16384)
  {
    if n == 0 { return A.zero; }
    var nchunks := (n + REPRO_CHUNK - 1) / REPRO_CHUNK;
    ghost var ts := Terms(term, n);
    var parts := new F[nchunks](_ => A.zero);
    for cid := 0 to nchunks
      invariant parts[..cid] == Parts(k, ts, REPRO_CHUNK, cid)
    {
      CutIsProduct(n, REPRO_CHUNK, cid);
      CutIsProduct(n, REPRO_CHUNK, cid + 1);
      var lo, hi := cid * REPRO_CHUNK, Min((cid + 1) * REPRO_CHUNK, n);
      NotPastEnd(n, cid);
      var acc := ChunkLoop(k, term, n, lo, hi);
      PartsGrow(A, k, ts, REPRO_CHUNK, cid);
      parts[cid] := k.out(acc);
      assert parts[..cid + 1] == parts[..cid] + [parts[cid]];
    }
    total := SumParts(A, parts[..]);
    assert parts[..nchunks] == parts[..];
  }

  lemma NotPastEnd(n: nat, cid: nat)
    requires cid < Chunks(n, REPRO_CHUNK)
    ensures cid * REPRO_CHUNK < n
  {
  }

  method SumParts<F>(A: Arith<F>, parts: seq<F>) returns (total: F)
    ensures total == SumFrom(A, A.zero, parts)
  {
    total := A.zero;
    for i := 0 to |parts|
      invariant total == SumFrom(A, A.zero, parts[..i])
    {
      total := A.add(total, parts[i]);
      assert parts[..i + 1][..i] == parts[..i];
    }
    assert parts[..|parts|] == parts;
  }

  // ---- the chunk tasks on any number of threads ----------------------------

  /** A task has accumulated the terms of its chunk up to `next`, or has stored its result. */
  datatype Task<S> = Active(next: nat, acc: S) | Stored

  datatype Pool<F, S> = Pool(tasks: seq<Task<S>>, parts: seq<F>)

  ghost predicate PoolShape<F, S>(ts: seq<F>, len: nat, p: Pool<F, S>) {
    len > 0 && |p.tasks| == |p.parts| == Chunks(|ts|, len)
  }

  function Spawn<F, S>(A: Arith<F>, k: Kernel<F, S>, ts: seq<F>, len: nat): Pool<F, S>
    requires len > 0
  {
    Pool(seq(Chunks(|ts|, len), i requires 0 <= i => Active(Cut(|ts|, len, i), k.start)),
         seq(Chunks(|ts|, len), _ => A.zero))
  }

  /** One step of task c: take in one more term, or store the finished chunk in its own slot. */
  ghost function TaskStep<F, S>(k: Kernel<F, S>, ts: seq<F>, len: nat, p: Pool<F, S>, c: nat): Pool<F, S>
    requires PoolShape(ts, len, p) && c < |p.tasks| && p.tasks[c].Active?
  {
    var t := p.tasks[c];
    if t.next < Cut(|ts|, len, c + 1) then p.(tasks := p.tasks[c := Active(t.next + 1, k.step(t.acc, ts[t.next]))])
    else Pool(p.tasks[c := Stored], p.parts[c := k.out(t.acc)])
  }

  /** `sched` names the task that moves at each step. */
  ghost predicate Schedule<F, S>(k: Kernel<F, S>, ts: seq<F>, len: nat, p: Pool<F, S>, sched: seq<nat>, q: Pool<F, S>)
    decreases |sched|
  {
    PoolShape(ts, len, p) &&
    if sched == [] then p == q
    else
      && sched[0] < |p.tasks| && p.tasks[sched[0]].Active?
      && Schedule(k, ts, len, TaskStep(k, ts, len, p, sched[0]), sched[1..], q)
  }

  ghost predicate TaskInv<F, S>(k: Kernel<F, S>, ts: seq<F>, len: nat, p: Pool<F, S>, c: nat)
    requires PoolShape(ts, len, p) && c < |p.tasks|
  {
    match p.tasks[c]
    case Active(next, acc) =>
      Cut(|ts|, len, c) <= next <= Cut(|ts|, len, c + 1) && acc == Run(k, ts[Cut(|ts|, len, c)..next])
    case Stored => p.parts[c] == k.out(Run(k, Chunk(ts, len, c)))
  }

  ghost predicate PoolInv<F, S>(k: Kernel<F, S>, ts: seq<F>, len: nat, p: Pool<F, S>) {
    PoolShape(ts, len, p) && forall c :: 0 <= c < |p.tasks| ==> TaskInv(k, ts, len, p, c)
  }

  lemma {:induction false} ScheduleKeepsInv<F, S>(k: Kernel<F, S>, ts: seq<F>, len: nat, p: Pool<F, S>, sched: seq<nat>,
                                                  q: Pool<F, S>)
    requires PoolInv(k, ts, len, p) && Schedule(k, ts, len, p, sched, q)
    ensures PoolInv(k, ts, len, q)
    decreases |sched|
  {
    if sched != [] {
      var c := sched[0];
      var p' := TaskStep(k, ts, len, p, c);
      var t := p.tasks[c];
      assert TaskInv(k, ts, len, p, c);
      if t.next < Cut(|ts|, len, c + 1) { ChunkPrefix(k, ts, Cut(|ts|, len, c), t.next); }
      assert TaskInv(k, ts, len, p', c);
      forall d | 0 <= d < |p'.tasks| ensures TaskInv(k, ts, len, p', d) { assert TaskInv(k, ts, len, p, d); }
      ScheduleKeepsInv(k, ts, len, p', sched[1..], q);
    }
  }

  /** However the chunk tasks interleave, once all have stored their results the
      final sum is the one of the single-threaded kernels. */
  lemma EverySchedule<F, S>(A: Arith<F>, k: Kernel<F, S>, ts: seq<F>, len: nat, sched: seq<nat>, q: Pool<F, S>)
    requires len > 0 && Schedule(k, ts, len, Spawn(A, k, ts, len), sched, q)
    requires forall c :: 0 <= c < |q.tasks| ==> q.tasks[c] == Stored
    ensures SumFrom(A, A.zero, q.parts) == Blocked(A, k, ts, len)
  {
    forall c | 0 <= c < Chunks(|ts|, len) ensures TaskInv(k, ts, len, Spawn(A, k, ts, len), c) {}
    ScheduleKeepsInv(k, ts, len, Spawn(A, k, ts, len), sched, q);
    forall c | 0 <= c < |q.parts| ensures q.parts[c] == k.out(Run(k, Chunk(ts, len, c))) {
      assert TaskInv(k, ts, len, q, c);
    }
    assert q.parts == Parts(k, ts, len, Chunks(|ts|, len));
  }
}
