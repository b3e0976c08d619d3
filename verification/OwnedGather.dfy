/** Gathering the segments that the ranks own into one vector, and the replicated application of a
    serial operator to it.  Segments travel padded to the longest, real and imaginary parts interleaved. */
module OwnedGather {
  import opened Basics
  import opened Chunking
  import opened Partition
  import RowSlices

  const MAX_I32: nat := 0x7fff_ffff

  const MAX_USIZE: nat := 0xffff_ffff_ffff_ffff

  // ---- packing ---------------------------------------------------------------------------

  function Interleaved<F>(x: seq<Complex<F>>): (s: seq<F>)
    ensures |s| == 2 * |x|
    ensures forall i :: 0 <= i < |x| ==> s[2 * i] == x[i].re && s[2 * i + 1] == x[i].im
  {
    if x == [] then [] else Interleaved(x[..|x| - 1]) + [x[|x| - 1].re, x[|x| - 1].im]
  }

  /** The send buffer of a rank. */
  function Packed<F>(zero: F, x: seq<Complex<F>>, maxLen: nat): (s: seq<F>)
    requires |x| <= maxLen
    ensures |s| == 2 * maxLen
  {
    Interleaved(x) + seq(2 * maxLen - 2 * |x|, _ => zero)
  }

  method Pack<F>(zero: F, x: seq<Complex<F>>, maxLen: nat) returns (send: array<F>)
    requires |x| <= maxLen
    ensures fresh(send) && send[..] == Packed(zero, x, maxLen)
  {
    send := new F[2 * maxLen](_ => zero);
    for i := 0 to |x|
      invariant forall k :: 0 <= k < i ==> send[2 * k] == x[k].re && send[2 * k + 1] == x[k].im
      invariant forall k :: 2 * i <= k < 2 * maxLen ==> send[k] == zero
    {
      send[2 * i] := x[i].re;
      send[2 * i + 1] := x[i].im;
    }
    PackedElements(zero, x, maxLen, send[..]);
  }

  lemma PackedElements<F>(zero: F, x: seq<Complex<F>>, maxLen: nat, send: seq<F>)
    requires |x| <= maxLen && |send| == 2 * maxLen
    requires forall k :: 0 <= k < |x| ==> send[2 * k] == x[k].re && send[2 * k + 1] == x[k].im
    requires forall k :: 2 * |x| <= k < 2 * maxLen ==> send[k] == zero
    ensures send == Packed(zero, x, maxLen)
  {
    forall k | 0 <= k < 2 * |x| ensures send[k] == Interleaved(x)[k] {
      var i := k / 2;
      if k % 2 == 0 {
        assert k == 2 * i && send[2 * i] == x[i].re;
      } else {
        assert k == 2 * i + 1 && send[2 * i + 1] == x[i].im;
      }
    }
  }

  // ---- the collectives ----------------------------------------------------------------------

  function Lengths<F>(world: seq<seq<Complex<F>>>): seq<nat> { seq(|world|, r requires 0 <= r < |world| => |world[r]|) }

  function Longest<F>(world: seq<seq<Complex<F>>>): (n: nat)
    ensures forall r :: 0 <= r < |world| ==> |world[r]| <= n
  {
    if world == [] then 0 else Max(Longest(world[..|world| - 1]), |world[|world| - 1]|)
  }

  /** What every rank receives when each sends its packed segment. */
  function Gathered<F>(zero: F, world: seq<seq<Complex<F>>>, maxLen: nat): seq<F>
    requires forall r :: 0 <= r < |world| ==> |world[r]| <= maxLen
  {
    if world == [] then []
    else Gathered(zero, world[..|world| - 1], maxLen) + Packed(zero, world[|world| - 1], maxLen)
  }

  lemma {:induction false} GatheredLength<F>(zero: F, world: seq<seq<Complex<F>>>, maxLen: nat)
    requires forall r :: 0 <= r < |world| ==> |world[r]| <= maxLen
    ensures |Gathered(zero, world, maxLen)| == 2 * |world| * maxLen
  {
    if world != [] {
      GatheredLength(zero, world[..|world| - 1], maxLen);
      assert 2 * |world| * maxLen == 2 * (|world| - 1) * maxLen + 2 * maxLen;
    }
  }

  /** Rank r's packed segment starts at 2 * r * maxLen. */
  lemma {:induction false} GatheredAt<F>(zero: F, world: seq<seq<Complex<F>>>, maxLen: nat, r: nat, start: nat,
                                         g: seq<F>)
    requires forall r :: 0 <= r < |world| ==> |world[r]| <= maxLen
    requires r < |world| && start == 2 * r * maxLen && g == Gathered(zero, world, maxLen)
    ensures start + 2 * maxLen <= |g| && g[start..start + 2 * maxLen] == Packed(zero, world[r], maxLen)
  {
    var n := |world| - 1;
    if r == n {
      GatheredLength(zero, world[..n], maxLen);
    } else {
      GatheredAt(zero, world[..n], maxLen, r, start, Gathered(zero, world[..n], maxLen));
      assert g[start..start + 2 * maxLen] == Gathered(zero, world[..n], maxLen)[start..start + 2 * maxLen];
    }
  }

  lemma {:induction false} ConcatLength<T>(world: seq<seq<T>>, lengths: seq<nat>)
    requires |lengths| == |world| && forall r :: 0 <= r < |world| ==> lengths[r] == |world[r]|
    ensures |Concat(world)| == Sum(lengths)
  {
    if world != [] { ConcatLength(world[..|world| - 1], lengths[..|world| - 1]); }
  }

  lemma {:induction false} SumMonotone(lengths: seq<nat>, r: nat)
    requires r <= |lengths|
    ensures Sum(lengths[..r]) <= Sum(lengths)
    decreases |lengths| - r
  {
    if r < |lengths| {
      SumMonotone(lengths, r + 1);
      assert lengths[..r + 1][..r] == lengths[..r];
    } else {
      assert lengths[..r] == lengths;
    }
  }

  // ---- unpacking --------------------------------------------------------------------------

  lemma PackedReads<F>(zero: F, x: seq<Complex<F>>, maxLen: nat, i: nat, re: F, im: F)
    requires i < |x| <= maxLen && re == Packed(zero, x, maxLen)[2 * i] && im == Packed(zero, x, maxLen)[2 * i + 1]
    ensures Complex(re, im) == x[i]
  {
  }

  /** One rank's segment is written behind the ones before it. */
  method UnpackOne<F>(zero: F, ghost x: seq<Complex<F>>, len: nat, maxLen: nat, gathered: seq<F>, start: nat,
                      offset: nat, out: array<Complex<F>>)
    requires |x| == len <= maxLen && start + 2 * maxLen <= |gathered|
    requires gathered[start..start + 2 * maxLen] == Packed(zero, x, maxLen)
    requires offset + len <= out.Length
    modifies out
    ensures out[..offset + len] == old(out[..offset]) + x
  {
    for i := 0 to len
      invariant out[..offset + i] == old(out[..offset]) + x[..i]
    {
      assert gathered[start + 2 * i] == gathered[start..start + 2 * maxLen][2 * i];
      assert gathered[start + 2 * i + 1] == gathered[start..start + 2 * maxLen][2 * i + 1];
      PackedReads(zero, x, maxLen, i, gathered[start + 2 * i], gathered[start + 2 * i + 1]);
      out[offset + i] := Complex(gathered[start + 2 * i], gathered[start + 2 * i + 1]);
    }
  }

  lemma OneSegmentMore<T>(world: seq<seq<T>>, lengths: seq<nat>, r: nat)
    requires r < |world| == |lengths|
    ensures Concat(world[..r + 1]) == Concat(world[..r]) + world[r]
    ensures Sum(lengths[..r + 1]) == Sum(lengths[..r]) + lengths[r] <= Sum(lengths)
  {
    assert world[..r + 1][..r] == world[..r] && lengths[..r + 1][..r] == lengths[..r];
    SumMonotone(lengths, r + 1);
  }

  lemma SegmentAt<F>(zero: F, world: seq<seq<Complex<F>>>, lengths: seq<nat>, maxLen: nat, g: seq<F>, r: nat,
                     start: nat)
    requires lengths == Lengths(world) && r < |world| && forall q :: 0 <= q < |world| ==> |world[q]| <= maxLen
    requires g == Gathered(zero, world, maxLen) && start == 2 * r * maxLen
    ensures |world[r]| == lengths[r] <= maxLen
    ensures start + 2 * maxLen <= |g| && g[start..start + 2 * maxLen] == Packed(zero, world[r], maxLen)
  {
    GatheredAt(zero, world, maxLen, r, start, g);
  }

  method Unpack<F>(zero: F, ghost world: seq<seq<Complex<F>>>, lengths: seq<nat>, maxLen: nat, gathered: seq<F>,
                   out: array<Complex<F>>)
    requires lengths == Lengths(world) && forall r :: 0 <= r < |world| ==> |world[r]| <= maxLen
    requires gathered == Gathered(zero, world, maxLen) && Sum(lengths) == out.Length
    modifies out
    ensures out[..] == Concat(world)
  {
    var offset := 0;
    for r := 0 to |lengths|
      invariant offset == Sum(lengths[..r]) <= out.Length
      invariant out[..offset] == Concat(world[..r])
    {
      var start := 2 * r * maxLen;
      SegmentAt(zero, world, lengths, maxLen, gathered, r, start);
      OneSegmentMore(world, lengths, r);
      UnpackOne(zero, world[r], lengths[r], maxLen, gathered, start, offset, out);
      offset := offset + lengths[r];
    }
    assert world[..|world|] == world && lengths[..|lengths|] == lengths;
  }

  // ---- the whole exchange -------------------------------------------------------------------

  /** `Plain` is a communicator without message passing. */
  datatype Comm = Mpi(rank: nat) | Plain(size: nat)

  datatype Status =
    | Ok
    | BadInputLength
    | BadOutputLength
    | BadSegment
    | BadScratch
    | TooLong
    | NegativeLength(rank: nat)
    | LengthMismatch
    | OffsetMismatch(offset: nat)
    | Overflow
    | TotalMismatch(total: nat)
    | NeedsMpi
    | ApplyFailed

  function LayoutVerdict(xLen: nat, yLen: nat, globalN: nat, rowStart: nat, localN: nat): Status {
    if xLen != localN then BadInputLength
    else if yLen != localN then BadOutputLength
    else if rowStart > globalN || localN > globalN - rowStart then BadSegment
    else Ok
  }

  ghost predicate NonNegative(lengths: seq<int>) { forall k :: 0 <= k < |lengths| ==> lengths[k] >= 0 }

  /** What is wrong with the length received from rank r, given that the ones before it are not negative. */
  ghost function FaultAt(lengths: seq<int>, r: nat, rank: nat, rowStart: nat, localN: nat): Status
    requires r < |lengths| && NonNegative(lengths[..r])
  {
    if lengths[r] < 0 then NegativeLength(r)
    else if r == rank && lengths[r] != localN then LengthMismatch
    else if r == rank && Sum(lengths[..r]) != rowStart then OffsetMismatch(Sum(lengths[..r]))
    else if Sum(lengths[..r]) + lengths[r] > MAX_USIZE then Overflow
    else Ok
  }

  /** The fault of the least of the first n ranks that has one. */
  ghost function FirstFault(lengths: seq<int>, n: nat, rank: nat, rowStart: nat, localN: nat): (st: Status)
    requires n <= |lengths|
    ensures st == Ok ==> NonNegative(lengths[..n])
    ensures st !in {BadInputLength, BadSegment, BadScratch}
  {
    if n == 0 then Ok
    else
      var before := FirstFault(lengths, n - 1, rank, rowStart, localN);
      if before != Ok then before else FaultAt(lengths, n - 1, rank, rowStart, localN)
  }

  /** The checks after the lengths have been exchanged. */
  ghost function LengthsVerdict(lengths: seq<int>, rank: nat, globalN: nat, rowStart: nat, localN: nat): Status {
    var fault := FirstFault(lengths, |lengths|, rank, rowStart, localN);
    if fault != Ok then fault
    else
      assert lengths[..|lengths|] == lengths;
      if Sum(lengths) != globalN then TotalMismatch(Sum(lengths)) else Ok
  }

  lemma SumOfNext(lengths: seq<int>, r: nat)
    requires r < |lengths| && NonNegative(lengths[..r]) && lengths[r] >= 0
    ensures NonNegative(lengths[..r + 1]) && Sum(lengths[..r + 1]) == Sum(lengths[..r]) + lengths[r]
  {
    assert lengths[..r + 1] == lengths[..r] + [lengths[r]];
    assert lengths[..r + 1][..r] == lengths[..r];
  }

  lemma NonNegativeFront(lengths: seq<int>, r: nat)
    requires r < |lengths|
    ensures NonNegative(lengths[..r + 1]) <==> NonNegative(lengths[..r]) && lengths[r] >= 0
  {
    assert lengths[..r + 1] == lengths[..r] + [lengths[r]];
  }

  /** Once a fault has been found, it is the verdict. */
  lemma {:induction false} FaultStays(lengths: seq<int>, r: nat, n: nat, rank: nat, rowStart: nat, localN: nat)
    requires r <= n <= |lengths| && FirstFault(lengths, r, rank, rowStart, localN) != Ok
    ensures FirstFault(lengths, n, rank, rowStart, localN) == FirstFault(lengths, r, rank, rowStart, localN)
  {
    if r < n { FaultStays(lengths, r, n - 1, rank, rowStart, localN); }
  }

  /** `lengths` are the 32-bit integers received. */
  method CheckLengths(lengths: seq<int>, rank: nat, globalN: nat, rowStart: nat, localN: nat) returns (st: Status)
    ensures st == LengthsVerdict(lengths, rank, globalN, rowStart, localN)
  {
    var offset := 0;
    for r := 0 to |lengths|
      invariant FirstFault(lengths, r, rank, rowStart, localN) == Ok
      invariant offset == Sum(lengths[..r])
    {
      st := CheckOne(lengths, r, offset, rank, rowStart, localN);
      if st != Ok {
        FaultStays(lengths, r + 1, |lengths|, rank, rowStart, localN);
        return;
      }
      SumOfNext(lengths, r);
      offset := offset + lengths[r];
    }
    assert lengths[..|lengths|] == lengths;
    if offset != globalN { return TotalMismatch(offset); }
    st := Ok;
  }

  method CheckOne(lengths: seq<int>, r: nat, offset: nat, rank: nat, rowStart: nat, localN: nat) returns (st: Status)
    requires r < |lengths| && FirstFault(lengths, r, rank, rowStart, localN) == Ok && offset == Sum(lengths[..r])
    ensures st == FirstFault(lengths, r + 1, rank, rowStart, localN)
  {
    if lengths[r] < 0 { return NegativeLength(r); }
    if r == rank {
      if lengths[r] != localN { return LengthMismatch; }
      if offset != rowStart { return OffsetMismatch(offset); }
    }
    if offset + lengths[r] > MAX_USIZE { return Overflow; }
    st := Ok;
  }

  /** No fault among the first n ranks: no length is negative, the sums fit a machine word, and if this rank is
      among them, its length and its row start are right. */
  lemma {:induction false} NoFaultIff(lengths: seq<int>, n: nat, rank: nat, rowStart: nat, localN: nat)
    requires n <= |lengths|
    ensures FirstFault(lengths, n, rank, rowStart, localN) == Ok <==>
      (NonNegative(lengths[..n]) && Sum(lengths[..n]) <= 0xffff_ffff_ffff_ffff &&
       (rank < n ==> lengths[rank] == localN && Sum(lengths[..rank]) == rowStart))
  {
    if n > 0 {
      NoFaultIff(lengths, n - 1, rank, rowStart, localN);
      NonNegativeFront(lengths, n - 1);
      if NonNegative(lengths[..n]) { SumOfNext(lengths, n - 1); }
    }
  }

  /** `world` holds the segments with which the ranks enter; a rank whose segment exceeds the
      32-bit length of a message does not enter. */
  method Allgather<F>(comm: Comm, zero: F, world: seq<seq<Complex<F>>>, x: seq<Complex<F>>, globalN: nat, rowStart: nat,
                      localN: nat, out: array<Complex<F>>)
    returns (st: Status)
    requires comm.Mpi? ==> comm.rank < |world| && world[comm.rank] == x
    modifies out
    ensures st == GatherVerdict(comm, world, |x|, globalN, rowStart, localN, out.Length)
    ensures st == Ok ==> out[..] == if comm.Mpi? then Concat(world) else x
    ensures st in {BadInputLength, BadSegment, BadScratch} ==> out[..] == old(out[..])
  {
    st := LayoutVerdict(|x|, localN, globalN, rowStart, localN);
    if st != Ok { return; }
    if out.Length != globalN { return BadScratch; }
    forall i | 0 <= i < out.Length { out[i] := Complex(zero, zero); }
    match comm
    case Mpi(rank) =>
      if localN > MAX_I32 { return TooLong; }
      var lengths := Lengths(world);
      st := CheckLengths(lengths, rank, globalN, rowStart, localN);
      if st != Ok { return; }
      var maxLen := Longest(world);
      var send := Pack(zero, x, maxLen);
      assert send[..] == Packed(zero, world[rank], maxLen);
      Unpack(zero, world, lengths, maxLen, Gathered(zero, world, maxLen), out);
    case Plain(size) =>
      if size != 1 || rowStart != 0 || localN != globalN { return NeedsMpi; }
      forall i | 0 <= i < out.Length { out[i] := x[i]; }
  }

  ghost function GatherVerdict<F>(comm: Comm, world: seq<seq<Complex<F>>>, xLen: nat, globalN: nat, rowStart: nat,
                                  localN: nat, outLen: nat): Status
    requires comm.Mpi? ==> comm.rank < |world|
  {
    var layout := LayoutVerdict(xLen, localN, globalN, rowStart, localN);
    if layout != Ok then layout
    else if outLen != globalN then BadScratch
    else
      match comm
      case Mpi(rank) =>
        if localN > MAX_I32 then TooLong else LengthsVerdict(Lengths(world), rank, globalN, rowStart, localN)
      case Plain(size) =>
        if size != 1 || rowStart != 0 || localN != globalN then NeedsMpi else Ok
  }

  // ---- the replicated operator -----------------------------------------------------------------

  /** A serial operator that may fail and keeps lengths. */
  type Operator<!F> = seq<Complex<F>> -> Option<seq<Complex<F>>>

  ghost predicate KeepsLength<F>(op: Operator<F>, v: seq<Complex<F>>) { op(v).Some? ==> |op(v).value| == |v| }

  /** y is the owned segment of what the operator makes of v. */
  ghost predicate Owned<F>(op: Operator<F>, v: seq<Complex<F>>, globalN: nat, rowStart: nat, localN: nat,
                           y: seq<Complex<F>>) {
    && op(v).Some? && |op(v).value| == globalN && rowStart + localN <= globalN
    && y == op(v).value[rowStart..rowStart + localN]
  }

  method ApplyOwned<F>(comm: Comm, zero: F, world: seq<seq<Complex<F>>>, op: Operator<F>, x: seq<Complex<F>>,
                       y: array<Complex<F>>,
                       globalN: nat, rowStart: nat, localN: nat, full: array<Complex<F>>, outLen: nat)
    returns (st: Status)
    requires comm.Mpi? ==> comm.rank < |world| && world[comm.rank] == x
    requires y != full && KeepsLength(op, if comm.Mpi? then Concat(world) else x)
    modifies y, full
    ensures st == ApplyVerdict(comm, world, op, x, y.Length, globalN, rowStart, localN, full.Length, outLen)
    ensures st == Ok ==> Owned(op, if comm.Mpi? then Concat(world) else x, globalN, rowStart, localN, y[..])
    ensures st != Ok ==> y[..] == old(y[..])
  {
    st := LayoutVerdict(|x|, y.Length, globalN, rowStart, localN);
    if st != Ok { return; }
    if outLen != globalN { return BadScratch; }
    st := Allgather(comm, zero, world, x, globalN, rowStart, localN, full);
    if st != Ok { return; }
    var result := op(full[..]);
    if result == None { return ApplyFailed; }
    forall i | 0 <= i < y.Length { y[i] := result.value[rowStart + i]; }
  }

  ghost function ApplyVerdict<F>(comm: Comm, world: seq<seq<Complex<F>>>, op: Operator<F>, x: seq<Complex<F>>,
                                 yLen: nat,
                           globalN: nat, rowStart: nat, localN: nat, fullLen: nat, outLen: nat): Status
    requires comm.Mpi? ==> comm.rank < |world|
  {
    var layout := LayoutVerdict(|x|, yLen, globalN, rowStart, localN);
    if layout != Ok then layout
    else if outLen != globalN then BadScratch
    else
      var gather := GatherVerdict(comm, world, |x|, globalN, rowStart, localN, fullLen);
      if gather != Ok then gather
      else if op(if comm.Mpi? then Concat(world) else x) == None then ApplyFailed
      else Ok
  }

  // ---- every rank together ------------------------------------------------------------------

  /** Under message passing a rank's exchange succeeds exactly when its buffers have the right lengths, its row
      start is the number of rows of the ranks before it, the segments make up the whole vector, whose length is a
      machine word, and its own fits a 32-bit length. */
  lemma AcceptsIffInRankOrder<F>(world: seq<seq<Complex<F>>>, rank: nat, xLen: nat, globalN: nat, rowStart: nat,
                                 localN: nat, outLen: nat)
    requires rank < |world| && globalN <= 0xffff_ffff_ffff_ffff
    ensures GatherVerdict(Mpi(rank), world, xLen, globalN, rowStart, localN, outLen) == Ok <==>
      (xLen == localN == |world[rank]| <= 0x7fff_ffff && outLen == globalN == Sum(Lengths(world)) &&
       rowStart == Sum(Lengths(world)[..rank]))
  {
    var lengths := Lengths(world);
    SumMonotone(lengths, rank + 1);
    assert lengths[..rank + 1][..rank] == lengths[..rank] && lengths[..|lengths|] == lengths;
    NoFaultIff(lengths, |lengths|, rank, rowStart, localN);
  }

  /** Without message passing the call succeeds exactly in a serial run: one process that owns all rows. */
  lemma PlainAcceptsIffSerial<F>(size: nat, world: seq<seq<Complex<F>>>, xLen: nat, globalN: nat, rowStart: nat,
                                 localN: nat, outLen: nat)
    ensures GatherVerdict(Plain(size), world, xLen, globalN, rowStart, localN, outLen) == Ok <==>
      size == 1 && rowStart == 0 && xLen == localN == globalN == outLen
  {
  }

  /** The application succeeds exactly when the exchange does, both full buffers and the output have the right
      lengths, and the operator succeeds. */
  lemma ApplyAcceptsIff<F>(comm: Comm, world: seq<seq<Complex<F>>>, op: Operator<F>, x: seq<Complex<F>>, yLen: nat,
                           globalN: nat, rowStart: nat, localN: nat, fullLen: nat, outLen: nat)
    requires comm.Mpi? ==> comm.rank < |world|
    ensures ApplyVerdict(comm, world, op, x, yLen, globalN, rowStart, localN, fullLen, outLen) == Ok <==>
      (yLen == localN && outLen == globalN &&
       GatherVerdict(comm, world, |x|, globalN, rowStart, localN, fullLen) == Ok &&
       op(if comm.Mpi? then Concat(world) else x).Some?)
  {
  }

  /** The serial run: the call succeeds exactly if the operator does, and then y is the operator's output, provided
      it is what `ApplyOwned` promises. */
  lemma SerialRunIsOperator<F>(world: seq<seq<Complex<F>>>, op: Operator<F>, x: seq<Complex<F>>, y: seq<Complex<F>>)
    requires KeepsLength(op, x)
    requires ApplyVerdict(Plain(1), world, op, x, |x|, |x|, 0, |x|, |x|, |x|) == Ok ==> Owned(op, x, |x|, 0, |x|, y)
    ensures ApplyVerdict(Plain(1), world, op, x, |x|, |x|, 0, |x|, |x|, |x|) == if op(x).Some? then Ok else ApplyFailed
    ensures op(x).Some? ==> y == op(x).value
  {
    PlainAcceptsIffSerial(1, world, |x|, |x|, 0, |x|, |x|);
  }

  /** `world` is v cut along a partition, and every segment fits a message. */
  ghost predicate Distributes<F>(v: seq<Complex<F>>, ptr: seq<nat>, world: seq<seq<Complex<F>>>) {
    && IsPartition(ptr, |v|, |world|) && |v| <= 0xffff_ffff_ffff_ffff
    && forall r :: 0 <= r < |world| ==> world[r] == v[ptr[r]..ptr[r + 1]] && |world[r]| <= 0x7fff_ffff
  }

  lemma SegmentsAreAll<T>(v: seq<T>, ptr: seq<nat>, parts: seq<seq<T>>)
    requires IsPartition(ptr, |v|, |parts|) && forall r :: 0 <= r < |parts| ==> parts[r] == v[ptr[r]..ptr[r + 1]]
    ensures Concat(parts) == v
  {
    RowSlices.SegmentsCover(v, ptr, parts, |parts|);
    assert parts[..|parts|] == parts && v[..|v|] == v;
  }

  /** With every rank's segment of v cut along a partition, every rank's exchange succeeds and gives v. */
  lemma GatherRestores<F>(v: seq<Complex<F>>, ptr: seq<nat>, world: seq<seq<Complex<F>>>, rank: nat)
    requires Distributes(v, ptr, world) && rank < |world|
    ensures Concat(world) == v
    ensures GatherVerdict(Mpi(rank), world, |world[rank]|, |v|, ptr[rank], |world[rank]|, |v|) == Ok
  {
    SegmentsAreAll(v, ptr, world);
    RowSlices.SegmentsCover(v, ptr, world, rank);
    ConcatLength(world, Lengths(world));
    ConcatLength(world[..rank], Lengths(world)[..rank]);
    AcceptsIffInRankOrder(world, rank, |world[rank]|, |v|, ptr[rank], |world[rank]|, |v|);
  }

  /** The verdict of one rank's call with buffers of the right lengths. */
  ghost function RankVerdict<F>(world: seq<seq<Complex<F>>>, op: Operator<F>, r: nat, globalN: nat,
                                rowStart: nat): Status
    requires r < |world|
  {
    ApplyVerdict(Mpi(r), world, op, world[r], |world[r]|, globalN, rowStart, |world[r]|, globalN, globalN)
  }

  /** What `ApplyOwned` promises of every rank's output: if the call succeeds, the segment owned of the
      operator's output on the vector gathered. */
  ghost predicate KeepsPromise<F>(world: seq<seq<Complex<F>>>, op: Operator<F>, r: nat, globalN: nat, rowStart: nat,
                                  y: seq<Complex<F>>)
    requires r < |world|
  {
    RankVerdict(world, op, r, globalN, rowStart) == Ok ==> Owned(op, Concat(world), globalN, rowStart, |world[r]|, y)
  }

  ghost predicate Promised<F>(world: seq<seq<Complex<F>>>, op: Operator<F>, globalN: nat, ptr: seq<nat>,
                              ys: seq<seq<Complex<F>>>) {
    |ys| == |world| < |ptr| && forall r :: 0 <= r < |world| ==>
      KeepsPromise(world, op, r, globalN, ptr[r], ys[r])
  }

  lemma RankSucceeds<F>(v: seq<Complex<F>>, ptr: seq<nat>, world: seq<seq<Complex<F>>>, op: Operator<F>, r: nat)
    requires Distributes(v, ptr, world) && r < |world|
    ensures RankVerdict(world, op, r, |v|, ptr[r]) == if op(v).Some? then Ok else ApplyFailed
  {
    GatherRestores(v, ptr, world, r);
  }

  /** The replicated application of a distributed vector succeeds on every rank if the serial one does, and then
      the ranks' outputs in rank order are the serial output; otherwise it fails on every rank. */
  lemma ReplicatedIsSerial<F>(v: seq<Complex<F>>, ptr: seq<nat>, world: seq<seq<Complex<F>>>, op: Operator<F>,
                              ys: seq<seq<Complex<F>>>)
    requires Distributes(v, ptr, world) && |world| > 0 && KeepsLength(op, v) && Promised(world, op, |v|, ptr, ys)
    ensures forall r :: 0 <= r < |world| ==>
      RankVerdict(world, op, r, |v|, ptr[r]) == if op(v).Some? then Ok else ApplyFailed
    ensures op(v).Some? ==> Concat(ys) == op(v).value
  {
    GatherRestores(v, ptr, world, 0);
    forall r | 0 <= r < |world|
      ensures RankVerdict(world, op, r, |v|, ptr[r]) == if op(v).Some? then Ok else ApplyFailed
    {
      RankSucceeds(v, ptr, world, op, r);
    }
    if op(v).Some? {
      forall r | 0 <= r < |ys| ensures ys[r] == op(v).value[ptr[r]..ptr[r + 1]] {
        assert KeepsPromise(world, op, r, |v|, ptr[r], ys[r]);
      }
      SegmentsAreAll(op(v).value, ptr, ys);
    }
  }
}
