/** Row slices of a CSR matrix, one per rank, and the block of the columns a rank owns. */
module RowSlices {
  import opened Chunking
  import opened Csr
  import opened Partition

  /** r holds the rows s to e of m. */
  ghost predicate IsSlice(m: Matrix, s: nat, e: nat, r: Matrix)
    requires Valid(m) && s <= e <= m.nrows
  {
    && Valid(r) && r.nrows == e - s && r.ncols == m.ncols
    && forall k :: 0 <= k < e - s ==> Row(r, k) == Row(m, s + k)
  }

  // ---- slicing by copying ranges -----------------------------------------------------

  method SliceCsrRows(m: Matrix, start: nat, end: nat) returns (r: Matrix)
    requires Valid(m) && start <= end <= m.nrows
    ensures IsSlice(m, start, end, r)
  {
    var startNnz, endNnz := m.rowPtr[start], m.rowPtr[end];
    var rp: seq<nat> := [];
    for k := start to end + 1
      invariant |rp| == k - start && forall i :: 0 <= i < |rp| ==> rp[i] == m.rowPtr[start + i] - startNnz
    {
      rp := rp + [m.rowPtr[k] - startNnz];
    }
    r := Matrix(end - start, m.ncols, rp, m.colIdx[startNnz..endNnz], m.vals[startNnz..endNnz]);
    RangeIsSlice(m, start, end, r);
  }

  lemma RangeIsSlice(m: Matrix, s: nat, e: nat, r: Matrix)
    requires Valid(m) && s <= e <= m.nrows && r.nrows == e - s && r.ncols == m.ncols && |r.rowPtr| == e - s + 1
    requires forall i :: 0 <= i <= e - s ==> r.rowPtr[i] == m.rowPtr[s + i] - m.rowPtr[s]
    requires r.colIdx == m.colIdx[m.rowPtr[s]..m.rowPtr[e]] && r.vals == m.vals[m.rowPtr[s]..m.rowPtr[e]]
    ensures IsSlice(m, s, e, r)
  {
    assert Valid(r);
    forall k | 0 <= k < e - s ensures Row(r, k) == Row(m, s + k) {
      assert r.rowPtr[k + 1] == m.rowPtr[s + (k + 1)] - m.rowPtr[s];
    }
  }

  // ---- slicing row by row --------------------------------------------------------------

  method SliceRows(m: Matrix, rowStart: nat, nLocal: nat) returns (r: Matrix)
    requires Valid(m) && rowStart + nLocal <= m.nrows
    ensures IsSlice(m, rowStart, rowStart + nLocal, r)
  {
    var rp: seq<nat>, ci: seq<nat>, vv: seq<real> := [0], [], [];
    ghost var s := rowStart;
    for row := rowStart to rowStart + nLocal
      invariant IsSlice(m, s, row, Matrix(row - s, m.ncols, rp, ci, vv))
    {
      var lo, hi := m.rowPtr[row], m.rowPtr[row + 1];
      OneMoreRow(m, s, row, Matrix(row - s, m.ncols, rp, ci, vv));
      ci, vv := ci + m.colIdx[lo..hi], vv + m.vals[lo..hi];
      rp := rp + [|ci|];
    }
    r := Matrix(nLocal, m.ncols, rp, ci, vv);
  }

  lemma OneMoreRow(m: Matrix, s: nat, e: nat, r: Matrix)
    requires Valid(m) && s <= e < m.nrows && IsSlice(m, s, e, r)
    ensures var lo, hi := m.rowPtr[e], m.rowPtr[e + 1];
      IsSlice(m, s, e + 1, Matrix(r.nrows + 1, m.ncols, r.rowPtr + [|r.colIdx| + (hi - lo)],
                                  r.colIdx + m.colIdx[lo..hi], r.vals + m.vals[lo..hi]))
  {
    var lo, hi := m.rowPtr[e], m.rowPtr[e + 1];
    var r' := Extend(r, Row(m, e));
    assert Cols(Row(m, e)) == m.colIdx[lo..hi] && Vals(Row(m, e)) == m.vals[lo..hi];
    assert Valid(r');
    forall k | 0 <= k < e + 1 - s ensures Row(r', k) == Row(m, s + k) {
      if k < e - s { assert Row(r', k) == Row(r, k); } else { assert Row(r', k) == Row(m, e); }
    }
  }

  /** The two ways of slicing give the same arrays. */
  lemma SlicesAgree(m: Matrix, s: nat, e: nat, a: Matrix, b: Matrix)
    requires Valid(m) && s <= e <= m.nrows && IsSlice(m, s, e, a) && IsSlice(m, s, e, b)
    ensures a == b
  {
    forall k | 0 <= k < a.nrows ensures Row(a, k) == Row(b, k) { assert Row(a, k) == Row(m, s + k); }
    SameRows(a, b);
  }

  // ---- the ranks' slices together --------------------------------------------------------

  /** a on top of b. */
  function Stack(a: Matrix, b: Matrix): Matrix
    requires |b.rowPtr| > 0
  {
    Matrix(a.nrows + b.nrows, a.ncols,
           a.rowPtr + seq(|b.rowPtr| - 1, k requires 0 <= k < |b.rowPtr| - 1 => |a.colIdx| + b.rowPtr[k + 1]),
           a.colIdx + b.colIdx, a.vals + b.vals)
  }

  lemma StackedSlices(m: Matrix, s: nat, mid: nat, e: nat, a: Matrix, b: Matrix)
    requires Valid(m) && s <= mid <= e <= m.nrows && IsSlice(m, s, mid, a) && IsSlice(m, mid, e, b)
    ensures IsSlice(m, s, e, Stack(a, b))
  {
    var q := Stack(a, b);
    StackIsValid(a, b, q);
    forall k | 0 <= k < e - s ensures Row(q, k) == Row(m, s + k) {
      if k < mid - s {
        assert Row(q, k) == Row(a, k);
      } else {
        StackedRow(a, b, q, k - a.nrows);
        assert Row(b, k - a.nrows) == Row(m, mid + (k - a.nrows));
      }
    }
  }

  lemma StackIsValid(a: Matrix, b: Matrix, q: Matrix)
    requires Valid(a) && Valid(b) && a.ncols == b.ncols && q == Stack(a, b)
    ensures Valid(q) && forall k :: 0 <= k <= b.nrows ==> q.rowPtr[a.nrows + k] == |a.colIdx| + b.rowPtr[k]
    ensures forall k :: 0 <= k <= a.nrows ==> q.rowPtr[k] == a.rowPtr[k]
  {
    forall k | 0 <= k <= b.nrows ensures q.rowPtr[a.nrows + k] == |a.colIdx| + b.rowPtr[k] {}
    forall i, k | 0 <= i <= k < |q.rowPtr| ensures q.rowPtr[i] <= q.rowPtr[k] {
      if i > a.nrows { assert b.rowPtr[i - a.nrows] <= b.rowPtr[k - a.nrows]; }
    }
  }

  lemma StackedRow(a: Matrix, b: Matrix, q: Matrix, k: nat)
    requires Valid(a) && Valid(b) && a.ncols == b.ncols && q == Stack(a, b) && Valid(q) && k < b.nrows
    requires forall k :: 0 <= k <= b.nrows ==> q.rowPtr[a.nrows + k] == |a.colIdx| + b.rowPtr[k]
    ensures Row(q, a.nrows + k) == Row(b, k)
  {
    assert q.rowPtr[a.nrows + (k + 1)] == |a.colIdx| + b.rowPtr[k + 1];
  }

  ghost predicate AreSlices(m: Matrix, ptr: seq<nat>, parts: seq<Matrix>)
    requires Valid(m) && IsPartition(ptr, m.nrows, |parts|)
  {
    forall r :: 0 <= r < |parts| ==> IsSlice(m, ptr[r], ptr[r + 1], parts[r])
  }

  function StackAll(parts: seq<Matrix>, ncols: nat): Matrix
    requires forall r :: 0 <= r < |parts| ==> |parts[r].rowPtr| > 0
  {
    if parts == [] then Matrix(0, ncols, [0], [], [])
    else Stack(StackAll(parts[..|parts| - 1], ncols), parts[|parts| - 1])
  }

  lemma {:induction false} StackedPrefix(m: Matrix, ptr: seq<nat>, parts: seq<Matrix>, k: nat)
    requires Valid(m) && IsPartition(ptr, m.nrows, |parts|) && AreSlices(m, ptr, parts) && k <= |parts|
    ensures forall r :: 0 <= r < |parts| ==> |parts[r].rowPtr| > 0
    ensures IsSlice(m, 0, ptr[k], StackAll(parts[..k], m.ncols))
  {
    forall r | 0 <= r < |parts| ensures |parts[r].rowPtr| > 0 { assert IsSlice(m, ptr[r], ptr[r + 1], parts[r]); }
    if k > 0 {
      StackedPrefix(m, ptr, parts, k - 1);
      assert parts[..k][..k - 1] == parts[..k - 1];
      assert IsSlice(m, ptr[k - 1], ptr[k], parts[k - 1]);
      StackedSlices(m, 0, ptr[k - 1], ptr[k], StackAll(parts[..k - 1], m.ncols), parts[k - 1]);
    }
  }

  /** For every partition, the ranks' slices on top of each other are the original arrays. */
  lemma SlicesRestore(m: Matrix, ptr: seq<nat>, parts: seq<Matrix>)
    requires Valid(m) && IsPartition(ptr, m.nrows, |parts|) && AreSlices(m, ptr, parts)
    ensures forall r :: 0 <= r < |parts| ==> |parts[r].rowPtr| > 0
    ensures StackAll(parts, m.ncols) == m
  {
    StackedPrefix(m, ptr, parts, |parts|);
    assert parts[..|parts|] == parts;
    var q := StackAll(parts, m.ncols);
    forall k | 0 <= k < m.nrows ensures Row(q, k) == Row(m, k) { assert Row(q, k) == Row(m, 0 + k); }
    SameRows(q, m);
  }

  /** Segments of v along a partition, laid end to end. */
  lemma {:induction false} SegmentsCover<T>(v: seq<T>, ptr: seq<nat>, segs: seq<seq<T>>, k: nat)
    requires k <= |segs| && IsPartition(ptr, |v|, |segs|)
    requires forall r :: 0 <= r < |segs| ==> segs[r] == v[ptr[r]..ptr[r + 1]]
    ensures Concat(segs[..k]) == v[..ptr[k]]
  {
    if k > 0 {
      SegmentsCover(v, ptr, segs, k - 1);
      assert segs[..k][..k - 1] == segs[..k - 1];
    }
  }

  ghost function LocalProducts(parts: seq<Matrix>, x: seq<real>): seq<seq<real>>
    requires forall r :: 0 <= r < |parts| ==> Valid(parts[r])
  {
    seq(|parts|, r requires 0 <= r < |parts| => Product(parts[r], x))
  }

  lemma SliceProduct(m: Matrix, s: nat, e: nat, r: Matrix, x: seq<real>)
    requires Valid(m) && s <= e <= m.nrows && IsSlice(m, s, e, r)
    ensures Product(r, x) == Product(m, x)[s..e]
  {
    forall k | 0 <= k < e - s ensures Product(r, x)[k] == Product(m, x)[s..e][k] { assert Row(r, k) == Row(m, s + k); }
  }

  /** For every partition, the ranks' local products in rank order are the global product. */
  lemma ProductsConcatenate(m: Matrix, ptr: seq<nat>, parts: seq<Matrix>, x: seq<real>)
    requires Valid(m) && IsPartition(ptr, m.nrows, |parts|) && AreSlices(m, ptr, parts)
    ensures forall r :: 0 <= r < |parts| ==> Valid(parts[r])
    ensures Concat(LocalProducts(parts, x)) == Product(m, x)
  {
    forall r | 0 <= r < |parts| ensures Valid(parts[r]) { assert IsSlice(m, ptr[r], ptr[r + 1], parts[r]); }
    var segs := LocalProducts(parts, x);
    forall r | 0 <= r < |parts| ensures segs[r] == Product(m, x)[ptr[r]..ptr[r + 1]] {
      assert IsSlice(m, ptr[r], ptr[r + 1], parts[r]);
      SliceProduct(m, ptr[r], ptr[r + 1], parts[r], x);
    }
    SegmentsCover(Product(m, x), ptr, segs, |segs|);
    assert segs[..|segs|] == segs;
  }

  // ---- owned columns ------------------------------------------------------------------------

  predicate Owned(s: nat, e: nat, c: nat) { s <= c < e }

  /** The entries in columns s to e, counted from s. */
  function OwnedPart(es: seq<Entry>, s: nat, e: nat): seq<Entry> {
    if es == [] then []
    else
      var last := es[|es| - 1];
      OwnedPart(es[..|es| - 1], s, e)
        + If(Owned(s, e, last.col), Entry(if last.col >= s then last.col - s else 0, last.val))
  }

  ghost function OwnedRows(m: Matrix, s: nat, e: nat, k: nat): seq<seq<Entry>>
    requires Valid(m) && s + k <= m.nrows
  {
    seq(k, i requires 0 <= i < k => OwnedPart(Row(m, s + i), s, e))
  }

  lemma OwnedLast(es: seq<Entry>, last: Entry, s: nat, e: nat, es': seq<Entry>)
    requires es' == es + [last]
    ensures OwnedPart(es', s, e) ==
      OwnedPart(es, s, e) + If(Owned(s, e, last.col), Entry(if last.col >= s then last.col - s else 0, last.val))
  {
    assert es'[..|es|] == es;
  }

  method PushOwned(m: Matrix, row: nat, s: nat, e: nat, cols: seq<nat>, vals: seq<real>)
    returns (ci: seq<nat>, vv: seq<real>, rowNnz: nat)
    requires Valid(m) && row < m.nrows
    ensures ci == cols + Cols(OwnedPart(Row(m, row), s, e)) && vv == vals + Vals(OwnedPart(Row(m, row), s, e))
    ensures rowNnz == |OwnedPart(Row(m, row), s, e)|
  {
    ci, vv, rowNnz := cols, vals, 0;
    ghost var part: seq<Entry> := [];
    for nz := m.rowPtr[row] to m.rowPtr[row + 1]
      invariant part == OwnedPart(RowTo(m, row, nz), s, e)
      invariant ci == cols + Cols(part) && vv == vals + Vals(part) && rowNnz == |part|
    {
      var c, v := m.colIdx[nz], m.vals[nz];
      ghost var kept := Entry(if c >= s then c - s else 0, v);
      OwnedStep(m, row, nz, Entry(c, v), s, e, part, kept);
      PushedOne(cols, vals, part, Owned(s, e, c), kept);
      part := part + If(Owned(s, e, c), kept);
      if s <= c < e { ci, vv, rowNnz := ci + [c - s], vv + [v], rowNnz + 1; }
    }
  }

  lemma OwnedStep(m: Matrix, row: nat, nz: nat, last: Entry, s: nat, e: nat, part: seq<Entry>, kept: Entry)
    requires Valid(m) && row < m.nrows && m.rowPtr[row] <= nz < m.rowPtr[row + 1]
    requires last == Entry(m.colIdx[nz], m.vals[nz])
    requires part == OwnedPart(RowTo(m, row, nz), s, e)
    requires kept == Entry(if last.col >= s then last.col - s else 0, last.val)
    ensures OwnedPart(RowTo(m, row, nz + 1), s, e) == part + If(Owned(s, e, last.col), kept)
  {
    RowToGrows(m, row, nz, last, RowTo(m, row, nz), RowTo(m, row, nz + 1));
    OwnedLast(RowTo(m, row, nz), last, s, e, RowTo(m, row, nz + 1));
  }

  method SliceOwnedCols(m: Matrix, rowStart: nat, rowEnd: nat) returns (r: Matrix)
    requires Valid(m) && rowStart <= rowEnd <= m.nrows
    ensures r == FromRows(rowEnd - rowStart, OwnedRows(m, rowStart, rowEnd, rowEnd - rowStart))
    ensures r.nrows == rowEnd - rowStart
  {
    var n := rowEnd - rowStart;
    var rp: seq<nat>, ci: seq<nat>, vv: seq<real> := [0], [], [];
    for k := 0 to n
      invariant |rp| == k + 1 && rp[k] == |ci|
      invariant Matrix(k, n, rp, ci, vv) == FromRows(n, OwnedRows(m, rowStart, rowEnd, k))
    {
      ghost var before := Matrix(k, n, rp, ci, vv);
      NextRow(n, OwnedRows(m, rowStart, rowEnd, k), OwnedRows(m, rowStart, rowEnd, k + 1),
        OwnedPart(Row(m, rowStart + k), rowStart, rowEnd), before);
      var rowNnz;
      ci, vv, rowNnz := PushOwned(m, rowStart + k, rowStart, rowEnd, ci, vv);
      rp := rp + [rp[|rp| - 1] + rowNnz];
    }
    r := Matrix(n, n, rp, ci, vv);
  }

  lemma {:induction false} OwnedValue(es: seq<Entry>, s: nat, e: nat, c: nat, part: seq<Entry>)
    requires part == OwnedPart(es, s, e) && s + c < e
    ensures ValueAt(part, c) == ValueAt(es, s + c)
  {
    if es != [] {
      var front, last := es[..|es| - 1], es[|es| - 1];
      OwnedValue(front, s, e, c, OwnedPart(front, s, e));
      ValueOfLonger(OwnedPart(front, s, e), Owned(s, e, last.col),
        Entry(if last.col >= s then last.col - s else 0, last.val), c);
    }
  }

  lemma {:induction false} OwnedFits(es: seq<Entry>, s: nat, e: nat, part: seq<Entry>)
    requires s <= e && part == OwnedPart(es, s, e)
    ensures Fit(e - s, part)
  {
    if es != [] { OwnedFits(es[..|es| - 1], s, e, OwnedPart(es[..|es| - 1], s, e)); }
  }

  lemma OwnedBlockRows(m: Matrix, s: nat, e: nat, r: Matrix, rows: seq<seq<Entry>>)
    requires Valid(m) && s <= e <= m.nrows && rows == OwnedRows(m, s, e, e - s) && r == FromRows(e - s, rows)
    ensures HasRows(r, e - s, rows)
  {
    forall i | 0 <= i < e - s ensures Fit(e - s, rows[i]) { OwnedFits(Row(m, s + i), s, e, rows[i]); }
    FromRowsHasRows(e - s, rows, r);
  }

  /** The owned block is the diagonal block of the dense matrix. */
  lemma OwnedBlockIsDiagonalBlock(m: Matrix, s: nat, e: nat, r: Matrix, k: nat, c: nat)
    requires Valid(m) && s <= e <= m.nrows && r == FromRows(e - s, OwnedRows(m, s, e, e - s)) && k < e - s && c < e - s
    ensures Valid(r) && r.nrows == e - s && Dense(r, k, c) == Dense(m, s + k, s + c)
  {
    OwnedBlockRows(m, s, e, r, OwnedRows(m, s, e, e - s));
    OwnedValue(Row(m, s + k), s, e, c, OwnedPart(Row(m, s + k), s, e));
  }
}
